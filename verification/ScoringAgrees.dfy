/** The Fellegi-Sunter scorer reproduces the merge decisions of name_matching on every pair, and
    exactly where their queues part. */
module ScoringAgrees {
  import opened Basics
  import opened Identity
  import opened Jaro
  import opened Scoring

  // ----- the running maxima are maxima -----

  lemma {:induction false} RowOfAre<T>(x: Form, fb: seq<Form>, f: (Form, Form) -> Option<T>, c: T)
    ensures c in RowOf(x, fb, f) <==> exists j :: 0 <= j < |fb| && f(x, fb[j]) == Some(c)
  {
    if fb == [] {
    } else {
      var n := |fb| - 1;
      RowOfAre(x, fb[..n], f, c);
      assert forall j :: 0 <= j < n ==> fb[..n][j] == fb[j];
    }
  }

  /** The list holds exactly the results on some pair of forms. */
  lemma {:induction false} PairsOfAre<T>(fa: seq<Form>, fb: seq<Form>, f: (Form, Form) -> Option<T>, c: T)
    ensures c in PairsOf(fa, fb, f) <==> exists i, j :: 0 <= i < |fa| && 0 <= j < |fb| && f(fa[i], fb[j]) == Some(c)
  {
    if fa == [] {
    } else {
      var n := |fa| - 1;
      PairsOfAre(fa[..n], fb, f, c);
      RowOfAre(fa[n], fb, f, c);
      assert forall i :: 0 <= i < n ==> fa[..n][i] == fa[i];
    }
  }

  lemma {:induction false} MaxIsMax(scores: seq<real>)
    ensures MaxOf(scores) >= 0.0
    ensures forall v :: v in scores ==> v <= MaxOf(scores)
    ensures MaxOf(scores) == 0.0 || MaxOf(scores) in scores
  {
    if scores == [] {
    } else {
      var n := |scores| - 1;
      MaxIsMax(scores[..n]);
      assert forall v :: v in scores <==> v in scores[..n] || v == scores[n];
    }
  }

  /** The best similarity reaches a positive bar exactly when that of some comparable pair does. */
  lemma BestReaches(fa: seq<Form>, fb: seq<Form>, bar: real)
    requires bar > 0.0
    ensures BestSimilarity(fa, fb) >= bar <==>
            exists i, j :: 0 <= i < |fa| && 0 <= j < |fb| && SimilarityOf(fa[i], fb[j]).Some?
                && SimilarityOf(fa[i], fb[j]).value >= bar
  {
    var all := PairsOf(fa, fb, SimilarityOf);
    MaxIsMax(all);
    if MaxOf(all) >= bar {
      PairsOfAre(fa, fb, SimilarityOf, MaxOf(all));
    }
    forall i, j | 0 <= i < |fa| && 0 <= j < |fb| && SimilarityOf(fa[i], fb[j]).Some?
        && SimilarityOf(fa[i], fb[j]).value >= bar
      ensures MaxOf(all) >= bar
    {
      PairsOfAre(fa, fb, SimilarityOf, SimilarityOf(fa[i], fb[j]).value);
    }
  }

  lemma CutPoint(odds: real, cut: real)
    requires odds > 0.0
    ensures Probability(odds) >= cut <==> odds >= cut + cut * odds
  {
  }

  /** Probability grows with odds, and its two cut-points are odds of 9 and 3/2. */
  lemma ProbabilityCuts(odds: real)
    requires odds > 0.0
    ensures Probability(odds) >= FS_AUTO_MERGE <==> odds >= 9.0
    ensures Probability(odds) >= FS_QUEUE_FLOOR <==> odds >= 1.5
  {
    CutPoint(odds, FS_AUTO_MERGE);
    CutPoint(odds, FS_QUEUE_FLOOR);
  }

  lemma ProbabilityGrows(x: real, y: real)
    requires 0.0 < x < y
    ensures Probability(x) < Probability(y)
  {
  }

  /** More total weight, more probability. */
  lemma WeightOrders(exp2: real -> real, f: seq<Feature>, g: seq<Feature>)
    requires IsExp2(exp2)
    ensures MatchProbability(exp2, f) > MatchProbability(exp2, g) <==> Total(f) > Total(g)
  {
    var x, y := Total(f), Total(g);
    if x > y { ProbabilityGrows(exp2(y), exp2(x)); }
    if y > x { ProbabilityGrows(exp2(x), exp2(y)); }
  }

  /** The strongest candidate carries the largest weight. */
  lemma {:induction false} StrongestIsMax(exp2: real -> real, candidates: seq<seq<Feature>>)
    requires IsExp2(exp2)
    ensures var best := Strongest(exp2, candidates);
            && (best.Some? <==> candidates != [])
            && (best.Some? ==> best.value in candidates)
            && forall c :: c in candidates ==> best.Some? && Total(c) <= Total(best.value)
  {
    if candidates == [] {
    } else {
      var n := |candidates| - 1;
      StrongestIsMax(exp2, candidates[..n]);
      var before := Strongest(exp2, candidates[..n]);
      if before.Some? { WeightOrders(exp2, candidates[n], before.value); }
      assert forall c :: c in candidates <==> c in candidates[..n] || c == candidates[n];
    }
  }

  // ----- the weights -----

  lemma PairTotal(x: Form, y: Form)
    ensures Total(PairFeatures(x, y)) == Weight(Name(LevelOf(x, y)))
            + (if NumericTokens(Core(x)) == NumericTokens(Core(y)) then 0.0 else -20.0)
            + (if Suffix(x) == Suffix(y) then 0.0 else -20.0)
  {
    ThreeTotal(Name(LevelOf(x, y)), Numeric(NumericTokens(Core(x)) == NumericTokens(Core(y))),
        SuffixIs(Suffix(x) == Suffix(y)));
  }

  lemma ThreeTotal(f: Feature, g: Feature, h: Feature)
    ensures Total([f, g, h]) == Weight(f) + Weight(g) + Weight(h)
  {
    assert [f, g, h][1..] == [g, h];
    assert [g, h][1..] == [h];
    assert Total([g, h]) == Weight(g) + Total([h]);
    SingleTotal(h);
  }

  /** Which pairs of full names reach the two positive weights; nothing lies between them. */
  lemma PairBands(x: Form, y: Form)
    requires BothFull(x, y)
    ensures Total(PairFeatures(x, y)) >= 9.0 <==> Comparable(x, y) && Similarity(x, y) >= JW_MERGE
    ensures Total(PairFeatures(x, y)) >= 1.4 <==> Comparable(x, y) && Similarity(x, y) >= JW_REVIEW
    ensures var t := Total(PairFeatures(x, y)); t == 9.0 || t == 1.4 || t <= 0.0
  {
    PairTotal(x, y);
  }

  /** What a total weight decides. */
  lemma Decides(exp2: real -> real, fs: seq<Feature>)
    requires IsExp2(exp2)
    requires var t := Total(fs); t == 9.0 || t == 2.4 || t == 1.4 || t <= 0.0
    ensures MatchProbability(exp2, fs) >= FS_AUTO_MERGE <==> Total(fs) == 9.0
    ensures MatchProbability(exp2, fs) >= FS_QUEUE_FLOOR <==> Total(fs) > 0.0
  {
    var t := Total(fs);
    ProbabilityCuts(exp2(t));
    assert Pow2(0) == 1 && Pow2(1) == 2 && Pow2(3) == 8 && Pow2(9) == 512;
    assert exp2(0.0) == 1.0 && exp2(1.0) == 2.0 && exp2(3.0) == 8.0 && exp2(9.0) == 512.0;
    if t == 2.4 || t == 1.4 { assert exp2(1.0) < exp2(t) < exp2(3.0); }
    if t < 0.0 { assert exp2(t) < exp2(0.0); }
  }

  lemma SingleTotal(f: Feature)
    ensures Total([f]) == Weight(f)
  {
  }

  /** The log2 odds the second scorer gives two people, each known by one name of two tokens or more. */
  lemma FullNameOdds(exp2: real -> real, x: Form, y: Form, light: set<string>)
    requires IsExp2(exp2) && BothFull(x, y) && !Abbreviates(x, y)
    ensures Total(Compare(exp2, Names(Person, light, [x]), Names(Person, light, [y]))) ==
            (if Core(x) == Core(y) then 0.0 else if |Core(x)| != |Core(y)| then -4.0
             else if Similarity(x, y) >= 0.92 then 9.0 else if Similarity(x, y) >= 0.75 then 1.4 else -2.0)
            + (if NumericTokens(Core(x)) == NumericTokens(Core(y)) then 0.0 else -20.0)
            + (if Suffix(x) == Suffix(y) then 0.0 else -20.0)
  {
    OnlyPair(exp2, x, y);
    PairTotal(x, y);
  }

  lemma OnlyPair(exp2: real -> real, x: Form, y: Form)
    requires IsExp2(exp2) && BothFull(x, y) && !Abbreviates(x, y)
    ensures PersonFeaturesOf(exp2, [x], [y]) == PairFeatures(x, y)
  {
    assert [x][..0] == [] && [y][..0] == [];
    assert RowOf(x, [y], FeaturesOf) == [PairFeatures(x, y)];
    assert PairsOf([x], [y], FeaturesOf) == PairsOf([x][..0], [y], FeaturesOf) + RowOf(x, [y], FeaturesOf);
    assert PairsOf([x], [y], FeaturesOf) == [PairFeatures(x, y)];
    assert [PairFeatures(x, y)][..0] == [] && Strongest(exp2, []).None?;
    assert Strongest(exp2, [PairFeatures(x, y)]) == Some(PairFeatures(x, y));
    assert forall i, j :: 0 <= i < |[x]| && 0 <= j < |[y]| ==> [x][i] == x && [y][j] == y;
  }

  /** And every other pair. */
  lemma OtherOdds(exp2: real -> real, a: Names, b: Names)
    requires IsExp2(exp2)
    ensures a.kind != b.kind ==> Total(Compare(exp2, a, b)) == -20.0
    ensures a.kind == b.kind && (a.forms == [] || b.forms == []) ==> Total(Compare(exp2, a, b)) == -8.0
    ensures a.kind == b.kind && a.kind != Person && a.forms != [] && b.forms != [] ==>
              if exists s :: s != "" && s in a.light && s in b.light then Total(Compare(exp2, a, b)) == 9.0
              else Total(Compare(exp2, a, b)) == if exists f :: f in a.forms && f in b.forms then 2.4 else -8.0
    ensures a.kind == b.kind == Person && a.forms != [] && b.forms != [] && AnyAbbreviation(a.forms, b.forms) ==>
              Total(Compare(exp2, a, b)) == 2.4
    ensures FullNameCase(a, b) && (forall x, y :: x in a.forms && y in b.forms ==> !BothFull(x, y)) ==>
              Total(Compare(exp2, a, b)) == -8.0
  {
    if s :| s != "" && s in a.light && s in b.light {
      assert s in (a.light - {""}) * (b.light - {""});
    }
    if s :| s in (a.light - {""}) * (b.light - {""}) {
      assert s != "" && s in a.light && s in b.light;
    }
    if forall x, y :: x in a.forms && y in b.forms ==> !BothFull(x, y) {
      NoneFull(a.forms, b.forms);
    }
  }

  lemma {:induction false} NoneFull(fa: seq<Form>, fb: seq<Form>)
    requires forall x, y :: x in fa && y in fb ==> !BothFull(x, y)
    ensures PairsOf(fa, fb, FeaturesOf) == []
  {
    if fa == [] {
    } else {
      var n := |fa| - 1;
      NoneFull(fa[..n], fb);
      NoneFullInRow(fa[n], fb);
    }
  }

  lemma {:induction false} NoneFullInRow(x: Form, fb: seq<Form>)
    requires forall y :: y in fb ==> !BothFull(x, y)
    ensures RowOf(x, fb, FeaturesOf) == []
  {
    if fb == [] {
    } else {
      NoneFullInRow(x, fb[..|fb| - 1]);
    }
  }

  // ----- the decisions -----

  predicate IdenticalPersonForms(a: Names, b: Names) {
    a.kind == Person && b.kind == Person && SharesForm(a, b)
  }

  predicate Merges(a: Names, b: Names) {
    MatchScore(a, b) >= AUTO_MERGE_THRESHOLD
  }

  predicate Queues(a: Names, b: Names) {
    !Merges(a, b) && (MatchScore(a, b) >= QUEUE_FLOOR || IdenticalPersonForms(a, b))
  }

  predicate FsMerges(exp2: real -> real, a: Names, b: Names)
    requires forall x :: exp2(x) > 0.0
  {
    FsScore(exp2, a, b) >= FS_AUTO_MERGE
  }

  predicate FsQueues(exp2: real -> real, a: Names, b: Names)
    requires forall x :: exp2(x) > 0.0
  {
    !FsMerges(exp2, a, b) && (FsScore(exp2, a, b) >= FS_QUEUE_FLOOR || IdenticalPersonForms(a, b))
  }

  /** Two people whose scores come from comparing full names. */
  predicate FullNameCase(a: Names, b: Names) {
    a.kind == b.kind == Person && a.forms != [] && b.forms != [] && !AnyAbbreviation(a.forms, b.forms)
  }

  lemma PersonDecision(exp2: real -> real, fa: seq<Form>, fb: seq<Form>)
    requires IsExp2(exp2) && !AnyAbbreviation(fa, fb)
    ensures var p := MatchProbability(exp2, PersonFeaturesOf(exp2, fa, fb));
            && (p >= FS_AUTO_MERGE <==> BestSimilarity(fa, fb) >= JW_MERGE)
            && (p >= FS_QUEUE_FLOOR <==> BestSimilarity(fa, fb) >= JW_REVIEW)
  {
    HeaviestReaches(exp2, fa, fb, JW_MERGE, 9.0);
    HeaviestReaches(exp2, fa, fb, JW_REVIEW, 1.4);
    HeaviestIsPinned(exp2, fa, fb);
    Decides(exp2, PersonFeaturesOf(exp2, fa, fb));
  }

  /** What one pair of forms contributes to either scorer. */
  lemma PairAgrees(x: Form, y: Form, bar: real, level: real)
    requires (bar == JW_MERGE && level == 9.0) || (bar == JW_REVIEW && level == 1.4)
    ensures FeaturesOf(x, y).Some? && Total(FeaturesOf(x, y).value) >= level
            <==> SimilarityOf(x, y).Some? && SimilarityOf(x, y).value >= bar
    ensures FeaturesOf(x, y).Some? ==> var t := Total(FeaturesOf(x, y).value); t == 9.0 || t == 1.4 || t <= 0.0
  {
    if BothFull(x, y) { PairBands(x, y); }
  }

  lemma HeaviestIsPinned(exp2: real -> real, fa: seq<Form>, fb: seq<Form>)
    requires IsExp2(exp2) && !AnyAbbreviation(fa, fb)
    ensures var t := Total(PersonFeaturesOf(exp2, fa, fb)); t == 9.0 || t == 1.4 || t <= 0.0
  {
    var all := PairsOf(fa, fb, FeaturesOf);
    var best := Strongest(exp2, all);
    StrongestIsMax(exp2, all);
    SingleTotal(Name(Disjoint));
    if best.Some? {
      PairsOfAre(fa, fb, FeaturesOf, best.value);
      var i, j :| 0 <= i < |fa| && 0 <= j < |fb| && FeaturesOf(fa[i], fb[j]) == Some(best.value);
      PairAgrees(fa[i], fb[j], JW_MERGE, 9.0);
    }
  }

  /** The weight of the strongest interpretation reaches a positive level exactly when the best
      similarity of comparable full names reaches its bar. */
  lemma HeaviestReaches(exp2: real -> real, fa: seq<Form>, fb: seq<Form>, bar: real, level: real)
    requires IsExp2(exp2) && !AnyAbbreviation(fa, fb)
    requires (bar == JW_MERGE && level == 9.0) || (bar == JW_REVIEW && level == 1.4)
    ensures Total(PersonFeaturesOf(exp2, fa, fb)) >= level <==> BestSimilarity(fa, fb) >= bar
  {
    HeavyMeansSimilar(exp2, fa, fb, bar, level);
    SimilarMeansHeavy(exp2, fa, fb, bar, level);
  }

  lemma HeavyMeansSimilar(exp2: real -> real, fa: seq<Form>, fb: seq<Form>, bar: real, level: real)
    requires IsExp2(exp2) && !AnyAbbreviation(fa, fb)
    requires (bar == JW_MERGE && level == 9.0) || (bar == JW_REVIEW && level == 1.4)
    ensures Total(PersonFeaturesOf(exp2, fa, fb)) >= level ==> BestSimilarity(fa, fb) >= bar
  {
    var all := PairsOf(fa, fb, FeaturesOf);
    var best := Strongest(exp2, all);
    StrongestIsMax(exp2, all);
    SingleTotal(Name(Disjoint));
    if best.Some? && Total(best.value) >= level {
      PairsOfAre(fa, fb, FeaturesOf, best.value);
      var i, j :| 0 <= i < |fa| && 0 <= j < |fb| && FeaturesOf(fa[i], fb[j]) == Some(best.value);
      PairAgrees(fa[i], fb[j], bar, level);
      BestReaches(fa, fb, bar);
    }
  }

  lemma SimilarMeansHeavy(exp2: real -> real, fa: seq<Form>, fb: seq<Form>, bar: real, level: real)
    requires IsExp2(exp2) && !AnyAbbreviation(fa, fb)
    requires (bar == JW_MERGE && level == 9.0) || (bar == JW_REVIEW && level == 1.4)
    ensures BestSimilarity(fa, fb) >= bar ==> Total(PersonFeaturesOf(exp2, fa, fb)) >= level
  {
    if BestSimilarity(fa, fb) >= bar {
      BestReaches(fa, fb, bar);
      var i, j :| 0 <= i < |fa| && 0 <= j < |fb| && SimilarityOf(fa[i], fb[j]).Some?
          && SimilarityOf(fa[i], fb[j]).value >= bar;
      PairAgrees(fa[i], fb[j], bar, level);
      PairsOfAre(fa, fb, FeaturesOf, FeaturesOf(fa[i], fb[j]).value);
      StrongestIsMax(exp2, PairsOf(fa, fb, FeaturesOf));
    }
  }

  /** Main result: on every pair of entities, whatever their kinds, names and aliases, the two scorers
      agree on auto-merging. */
  lemma SameAutoMerges(exp2: real -> real, a: Names, b: Names)
    requires IsExp2(exp2)
    ensures FsMerges(exp2, a, b) <==> Merges(a, b)
  {
    if FullNameCase(a, b) {
      PersonDecision(exp2, a.forms, b.forms);
    } else {
      var fs := Compare(exp2, a, b);
      assert |fs| == 1 && fs == [fs[0]];
      SingleTotal(fs[0]);
      Decides(exp2, fs);
    }
  }

  /** Where the queues part: only for people, with no shared and no abbreviated form, whose best
      full-name similarity lies in the band between the two review floors. */
  lemma QueuesPartIff(exp2: real -> real, a: Names, b: Names)
    requires IsExp2(exp2)
    ensures FsQueues(exp2, a, b) ==> Queues(a, b)
    ensures Queues(a, b) && !FsQueues(exp2, a, b) <==>
            && FullNameCase(a, b) && !SharesForm(a, b)
            && 0.55 <= BestSimilarity(a.forms, b.forms) < 0.75
  {
    SameAutoMerges(exp2, a, b);
    if FullNameCase(a, b) {
      PersonDecision(exp2, a.forms, b.forms);
    } else {
      var fs := Compare(exp2, a, b);
      assert |fs| == 1 && fs == [fs[0]];
      SingleTotal(fs[0]);
      Decides(exp2, fs);
    }
  }

  /** Neither scorer lets a bare-name abbreviation reach its merge bar. */
  lemma MergesAreNoAbbreviations(a: Names, b: Names)
    requires Merges(a, b) && a.kind == Person
    ensures a.kind == b.kind && !AnyAbbreviation(a.forms, b.forms)
  {
  }

  // ----- the order of the two entities does not matter -----

  lemma SimilarityOfSymmetric(x: Form, y: Form)
    ensures SimilarityOf(x, y) == SimilarityOf(y, x)
  {
    SimilaritySymmetric(Join(Core(x)), Join(Core(y)));
  }

  lemma BestSymmetric(fa: seq<Form>, fb: seq<Form>)
    ensures BestSimilarity(fa, fb) <= BestSimilarity(fb, fa)
  {
    var best := BestSimilarity(fa, fb);
    MaxIsMax(PairsOf(fa, fb, SimilarityOf));
    MaxIsMax(PairsOf(fb, fa, SimilarityOf));
    if best != 0.0 {
      PairsOfAre(fa, fb, SimilarityOf, best);
      var i, j :| 0 <= i < |fa| && 0 <= j < |fb| && SimilarityOf(fa[i], fb[j]) == Some(best);
      SimilarityOfSymmetric(fa[i], fb[j]);
      PairsOfAre(fb, fa, SimilarityOf, best);
    }
  }

  lemma ScoreSymmetric(a: Names, b: Names)
    ensures MatchScore(a, b) == MatchScore(b, a)
  {
    BestSymmetric(a.forms, b.forms);
    BestSymmetric(b.forms, a.forms);
    assert AnyAbbreviation(a.forms, b.forms) ==> AnyAbbreviation(b.forms, a.forms) by {
      if i, j :| 0 <= i < |a.forms| && 0 <= j < |b.forms| && Abbreviates(a.forms[i], b.forms[j]) {
        assert Abbreviates(b.forms[j], a.forms[i]);
      }
    }
    assert AnyAbbreviation(b.forms, a.forms) ==> AnyAbbreviation(a.forms, b.forms) by {
      if i, j :| 0 <= i < |b.forms| && 0 <= j < |a.forms| && Abbreviates(b.forms[i], a.forms[j]) {
        assert Abbreviates(a.forms[j], b.forms[i]);
      }
    }
    assert (a.light - {""}) * (b.light - {""}) == (b.light - {""}) * (a.light - {""});
    assert SharesForm(a, b) <==> SharesForm(b, a);
  }
}
