/** The two match scorers and why they decide alike: name_matching's single score and the
    Fellegi-Sunter feature weights auto-merge the same pairs, and differ on what to queue only in one
    similarity band. */
module Scoring {
  import opened Basics
  import opened Identity
  import opened Jaro

  /** A normalised name form, as its tokens. */
  type Form = seq<string>

  /** What the scorers see of an entity: its kind, the light-normalised surface strings, and the
      distinct fully normalised forms of its name and aliases. */
  datatype Names = Names(kind: Kind, light: set<string>, forms: seq<Form>)

  const CONTAINMENT_SCORE: real := 0.86
  const QUEUE_FLOOR: real := DISAMBIGUATE_THRESHOLD
  const FS_AUTO_MERGE: real := 0.90
  const FS_QUEUE_FLOOR: real := 0.60
  const JW_MERGE: real := 0.92
  const JW_REVIEW: real := 0.75

  const GENERATIONAL_SUFFIXES: set<string> := {"jr", "sr", "jnr", "snr", "ii", "iii", "iv", "v"}

  function Tokens(f: Form): set<string> {
    set t | t in f
  }

  /** One bare given name that a longer name expands by more than a generational suffix. */
  predicate IsAbbreviation(sub: Form, sup: Form) {
    |sub| == 1 && |sup| > 1 && Tokens(sub) < Tokens(sup) && (Tokens(sup) - Tokens(sub)) - GENERATIONAL_SUFFIXES != {}
  }

  predicate Abbreviates(x: Form, y: Form) {
    IsAbbreviation(x, y) || IsAbbreviation(y, x)
  }

  predicate AnyAbbreviation(fa: seq<Form>, fb: seq<Form>) {
    exists i, j :: 0 <= i < |fa| && 0 <= j < |fb| && Abbreviates(fa[i], fb[j])
  }

  predicate HasDigit(t: string) {
    exists i :: 0 <= i < |t| && '0' <= t[i] <= '9'
  }

  function NumericTokens(f: Form): set<string> {
    set t | t in f && HasDigit(t)
  }

  function Core(f: Form): Form {
    if |f| > 1 && f[|f| - 1] in GENERATIONAL_SUFFIXES then f[..|f| - 1] else f
  }

  function Suffix(f: Form): Option<string> {
    if |f| > 1 && f[|f| - 1] in GENERATIONAL_SUFFIXES then Some(f[|f| - 1]) else None
  }

  function Join(f: Form): string {
    if f == [] then "" else if |f| == 1 then f[0] else f[0] + " " + Join(f[1..])
  }

  /** Jaro-Winkler of the two core names. */
  function Similarity(x: Form, y: Form): real {
    JaroWinklerOf(Join(Core(x)), Join(Core(y)))
  }

  predicate BothFull(x: Form, y: Form) {
    |Core(x)| >= 2 && |Core(y)| >= 2
  }

  /** Two full names that may be spelling variants of each other. */
  predicate Comparable(x: Form, y: Form) {
    && BothFull(x, y)
    && Suffix(x) == Suffix(y) && |Core(x)| == |Core(y)| && Core(x) != Core(y)
    && NumericTokens(Core(x)) == NumericTokens(Core(y))
  }

  // ----- running over all pairs of forms -----

  /** The results of `f` on one form against each form of the other entity, in order. */
  function RowOf<T>(x: Form, fb: seq<Form>, f: (Form, Form) -> Option<T>): seq<T> {
    if fb == [] then []
    else
      var n := |fb| - 1;
      RowOf(x, fb[..n], f) + if f(x, fb[n]).Some? then [f(x, fb[n]).value] else []
  }

  function PairsOf<T>(fa: seq<Form>, fb: seq<Form>, f: (Form, Form) -> Option<T>): seq<T> {
    if fa == [] then []
    else
      var n := |fa| - 1;
      PairsOf(fa[..n], fb, f) + RowOf(fa[n], fb, f)
  }

  lemma RowStep<T>(x: Form, fb: seq<Form>, f: (Form, Form) -> Option<T>, j: nat)
    requires j < |fb|
    ensures RowOf(x, fb[..j + 1], f) == RowOf(x, fb[..j], f) + if f(x, fb[j]).Some? then [f(x, fb[j]).value] else []
  {
    assert fb[..j + 1][..j] == fb[..j];
  }

  lemma PairsStep<T>(fa: seq<Form>, fb: seq<Form>, f: (Form, Form) -> Option<T>, i: nat)
    requires i < |fa|
    ensures PairsOf(fa[..i + 1], fb, f) == PairsOf(fa[..i], fb, f) + RowOf(fa[i], fb, f)
    ensures fb[..|fb|] == fb && fa[..|fa|] == fa
  {
    assert fa[..i + 1][..i] == fa[..i];
  }

  // ----- name_matching -----

  function Max(x: real, y: real): real {
    if x >= y then x else y
  }

  /** The running best, from 0. */
  function MaxOf(scores: seq<real>): real {
    if scores == [] then 0.0 else Max(MaxOf(scores[..|scores| - 1]), scores[|scores| - 1])
  }

  lemma MaxStep(scores: seq<real>, v: real)
    ensures MaxOf(scores + [v]) == Max(MaxOf(scores), v)
  {
  }

  function SimilarityOf(x: Form, y: Form): Option<real> {
    if Comparable(x, y) then Some(Similarity(x, y)) else None
  }

  /** The best similarity of two comparable full names, or 0. */
  function BestSimilarity(fa: seq<Form>, fb: seq<Form>): real {
    MaxOf(PairsOf(fa, fb, SimilarityOf))
  }

  function PersonScoreOf(fa: seq<Form>, fb: seq<Form>): real {
    if AnyAbbreviation(fa, fb) then CONTAINMENT_SCORE else BestSimilarity(fa, fb)
  }

  /** name_matching.match_score */
  function MatchScore(a: Names, b: Names): real {
    if a.kind != b.kind || a.forms == [] || b.forms == [] then 0.0
    else if a.kind != Person then
      if (a.light - {""}) * (b.light - {""}) != {} then 1.0
      else if SharesForm(a, b) then CONTAINMENT_SCORE
      else 0.0
    else PersonScoreOf(a.forms, b.forms)
  }

  /** The second-stage score of the resolver: the surface, on its own, against the best existing row.
      `norm` is the normalisation of a name with its aliases. */
  function Verification(s: State, surface: string, kind: Kind, top: Option<Top>,
                        norm: (Kind, string, set<string>) -> Names): real
    requires top.Some? ==> top.value.id in s.ents
  {
    if top.None? then 0.0
    else
      var row := s.ents[top.value.id];
      MatchScore(norm(kind, row.name, row.aliases), norm(kind, surface, {surface}))
  }

  predicate SharesForm(a: Names, b: Names) {
    exists f :: f in a.forms && f in b.forms
  }

  method FindAbbreviation(fa: seq<Form>, fb: seq<Form>) returns (found: bool)
    ensures found == AnyAbbreviation(fa, fb)
  {
    for i := 0 to |fa|
      invariant !AnyAbbreviation(fa[..i], fb)
    {
      for j := 0 to |fb|
        invariant forall k :: 0 <= k < j ==> !Abbreviates(fa[i], fb[k])
      {
        if Abbreviates(fa[i], fb[j]) { return true; }
      }
      assert forall k, j :: 0 <= k < |fa[..i + 1]| && 0 <= j < |fb| && Abbreviates(fa[..i + 1][k], fb[j]) ==>
          k < i && fa[..i + 1][k] == fa[..i][k];
    }
    assert fa[..|fa|] == fa;
    return false;
  }

  /** _person_score: the containment check, then a running best over comparable full names. */
  method PersonScore(fa: seq<Form>, fb: seq<Form>) returns (best: real)
    ensures best == PersonScoreOf(fa, fb)
  {
    var abbreviated := FindAbbreviation(fa, fb);
    if abbreviated { return CONTAINMENT_SCORE; }
    best := BestFullName(fa, fb);
  }

  /** One pair of forms: skipped unless both are full names that agree on all but spelling. */
  method CompareForms(x: Form, y: Form) returns (r: Option<real>)
    ensures r == SimilarityOf(x, y)
  {
    if Comparable(x, y) {
      var jw := JaroWinkler(Join(Core(x)), Join(Core(y)));
      return Some(jw);
    }
    return None;
  }

  method BestFullName(fa: seq<Form>, fb: seq<Form>) returns (best: real)
    ensures best == BestSimilarity(fa, fb)
  {
    ghost var seen: seq<real> := [];
    best := 0.0;
    for i := 0 to |fa|
      invariant seen == PairsOf(fa[..i], fb, SimilarityOf) && best == MaxOf(seen)
    {
      ghost var start := seen;
      for j := 0 to |fb|
        invariant seen == start + RowOf(fa[i], fb[..j], SimilarityOf) && best == MaxOf(seen)
      {
        RowStep(fa[i], fb, SimilarityOf, j);
        var jw := CompareForms(fa[i], fb[j]);
        if jw.Some? {
          MaxStep(seen, jw.value);
          best := Max(best, jw.value);
          seen := seen + [jw.value];
        }
      }
      PairsStep(fa, fb, SimilarityOf, i);
    }
    assert fa[..|fa|] == fa;
  }

  // ----- probabilistic -----

  datatype NameLevel =
    | ExactLight | JwHi | PunctFolded | Containment | JwMid | IdenticalFull | JwLow | AddedComponent | Disjoint

  datatype Feature = CrossKind | Name(level: NameLevel) | Numeric(agree: bool) | SuffixIs(agree: bool)

  /** The pinned log2 Bayes factors. */
  function Weight(f: Feature): real {
    match f
    case CrossKind => -20.0
    case Name(ExactLight) => 9.0
    case Name(JwHi) => 9.0
    case Name(PunctFolded) => 2.4
    case Name(Containment) => 2.4
    case Name(JwMid) => 1.4
    case Name(IdenticalFull) => 0.0
    case Name(JwLow) => -2.0
    case Name(AddedComponent) => -4.0
    case Name(Disjoint) => -8.0
    case Numeric(agree) => if agree then 0.0 else -20.0
    case SuffixIs(agree) => if agree then 0.0 else -20.0
  }

  function Total(fs: seq<Feature>): real {
    if fs == [] then 0.0 else Weight(fs[0]) + Total(fs[1..])
  }

  function Pow2(n: nat): nat {
    if n == 0 then 1 else 2 * Pow2(n - 1)
  }

  /** What is used of x |-> 2.0**x: positive, strictly increasing, and a power of two at each natural. */
  ghost predicate IsExp2(exp2: real -> real) {
    && (forall x :: exp2(x) > 0.0)
    && (forall x, y :: x < y ==> exp2(x) < exp2(y))
    && (forall n: nat {:trigger Pow2(n)} :: exp2(n as real) == Pow2(n) as real)
  }

  function Probability(odds: real): real
    requires odds > 0.0
  {
    odds / (1.0 + odds)
  }

  function MatchProbability(exp2: real -> real, fs: seq<Feature>): real
    requires forall x :: exp2(x) > 0.0
  {
    Probability(exp2(Total(fs)))
  }

  function LevelOf(x: Form, y: Form): NameLevel {
    if Core(x) == Core(y) then IdenticalFull
    else if |Core(x)| != |Core(y)| then AddedComponent
    else if Similarity(x, y) >= JW_MERGE then JwHi
    else if Similarity(x, y) >= JW_REVIEW then JwMid
    else JwLow
  }

  function PairFeatures(x: Form, y: Form): seq<Feature> {
    [Name(LevelOf(x, y)), Numeric(NumericTokens(Core(x)) == NumericTokens(Core(y))), SuffixIs(Suffix(x) == Suffix(y))]
  }

  /** Keep the candidate when it is strictly more probable than the best so far. */
  function Stronger(exp2: real -> real, best: Option<seq<Feature>>, fs: seq<Feature>): Option<seq<Feature>>
    requires forall x :: exp2(x) > 0.0
  {
    if best.None? || MatchProbability(exp2, fs) > MatchProbability(exp2, best.value) then Some(fs) else best
  }

  /** Scan a list of candidate interpretations, keeping the strongest. */
  function Strongest(exp2: real -> real, candidates: seq<seq<Feature>>): Option<seq<Feature>>
    requires forall x :: exp2(x) > 0.0
  {
    if candidates == [] then None
    else
      var n := |candidates| - 1;
      Stronger(exp2, Strongest(exp2, candidates[..n]), candidates[n])
  }

  lemma StrongestStep(exp2: real -> real, candidates: seq<seq<Feature>>, fs: seq<Feature>)
    requires forall x :: exp2(x) > 0.0
    ensures Strongest(exp2, candidates + [fs]) == Stronger(exp2, Strongest(exp2, candidates), fs)
  {
  }

  function FeaturesOf(x: Form, y: Form): Option<seq<Feature>> {
    if BothFull(x, y) then Some(PairFeatures(x, y)) else None
  }

  function PersonFeaturesOf(exp2: real -> real, fa: seq<Form>, fb: seq<Form>): seq<Feature>
    requires forall x :: exp2(x) > 0.0
  {
    if AnyAbbreviation(fa, fb) then [Name(Containment)]
    else
      var best := Strongest(exp2, PairsOf(fa, fb, FeaturesOf));
      if best.Some? then best.value else [Name(Disjoint)]
  }

  /** probabilistic.compare */
  function Compare(exp2: real -> real, a: Names, b: Names): seq<Feature>
    requires forall x :: exp2(x) > 0.0
  {
    if a.kind != b.kind then [CrossKind]
    else if a.forms == [] || b.forms == [] then [Name(Disjoint)]
    else if a.kind != Person then
      if (a.light - {""}) * (b.light - {""}) != {} then [Name(ExactLight)]
      else if SharesForm(a, b) then [Name(PunctFolded)]
      else [Name(Disjoint)]
    else PersonFeaturesOf(exp2, a.forms, b.forms)
  }

  function FsScore(exp2: real -> real, a: Names, b: Names): real
    requires forall x :: exp2(x) > 0.0
  {
    MatchProbability(exp2, Compare(exp2, a, b))
  }

  /** _person_features: the containment check, then the strongest interpretation over full names. */
  method PersonFeatures(exp2: real -> real, fa: seq<Form>, fb: seq<Form>) returns (features: seq<Feature>)
    requires forall x :: exp2(x) > 0.0
    ensures features == PersonFeaturesOf(exp2, fa, fb)
  {
    var abbreviated := FindAbbreviation(fa, fb);
    if abbreviated { return [Name(Containment)]; }
    var best: Option<seq<Feature>> := None;
    ghost var seen: seq<seq<Feature>> := [];
    for i := 0 to |fa|
      invariant seen == PairsOf(fa[..i], fb, FeaturesOf) && best == Strongest(exp2, seen)
    {
      ghost var start := seen;
      for j := 0 to |fb|
        invariant seen == start + RowOf(fa[i], fb[..j], FeaturesOf) && best == Strongest(exp2, seen)
      {
        RowStep(fa[i], fb, FeaturesOf, j);
        if BothFull(fa[i], fb[j]) {
          var fs := PairFeatures(fa[i], fb[j]);
          StrongestStep(exp2, seen, fs);
          best := Stronger(exp2, best, fs);
          seen := seen + [fs];
        }
      }
      PairsStep(fa, fb, FeaturesOf, i);
    }
    assert fa[..|fa|] == fa;
    return if best.Some? then best.value else [Name(Disjoint)];
  }

  // ----- the rules, told from outside -----

  /** A bare given name abbreviates a longer name that has it among its tokens and another besides that is no
      generational suffix. */
  lemma AbbreviationIff(x: Form, y: Form)
    ensures IsAbbreviation(x, y) <==>
            |x| == 1 && |y| > 1 && x[0] in y
            && exists t :: t in y && t != x[0] && t !in {"jr", "sr", "jnr", "snr", "ii", "iii", "iv", "v"}
  {
    if |x| == 1 && |y| > 1 && x[0] in y {
      assert Tokens(x) == {x[0]};
      if t :| t in y && t != x[0] && t !in GENERATIONAL_SUFFIXES {
        assert t in Tokens(y) && t in (Tokens(y) - Tokens(x)) - GENERATIONAL_SUFFIXES;
      }
      if IsAbbreviation(x, y) {
        var t :| t in (Tokens(y) - Tokens(x)) - GENERATIONAL_SUFFIXES;
        assert t in y && t != x[0];
      }
    }
    if IsAbbreviation(x, y) {
      assert x[0] in Tokens(x);
    }
  }

  /** A name of several tokens that ends in a generational suffix is its core and that suffix; any other name is
      all core. */
  lemma CoreAndSuffix(f: Form)
    ensures |f| > 1 && f[|f| - 1] in {"jr", "sr", "jnr", "snr", "ii", "iii", "iv", "v"} ==>
              Suffix(f) == Some(f[|f| - 1]) && f == Core(f) + [f[|f| - 1]]
    ensures |f| <= 1 || f[|f| - 1] !in {"jr", "sr", "jnr", "snr", "ii", "iii", "iv", "v"} ==>
              Suffix(f).None? && Core(f) == f
  {
  }

  /** Two names are compared when both cores have two tokens or more, equally many, and differ, the suffixes
      agree, and so do the tokens with a digit in them. */
  lemma ComparableIff(x: Form, y: Form)
    ensures Comparable(x, y) <==>
            && 2 <= |Core(x)| == |Core(y)| && Core(x) != Core(y) && Suffix(x) == Suffix(y)
            && forall t: string :: (exists i :: 0 <= i < |t| && '0' <= t[i] <= '9') ==> (t in Core(x) <==> t in Core(y))
  {
    if forall t: string :: (exists i :: 0 <= i < |t| && '0' <= t[i] <= '9') ==> (t in Core(x) <==> t in Core(y)) {
      assert forall t :: t in NumericTokens(Core(x)) <==> t in NumericTokens(Core(y));
    }
    if NumericTokens(Core(x)) == NumericTokens(Core(y)) {
      forall t: string | exists i :: 0 <= i < |t| && '0' <= t[i] <= '9'
        ensures t in Core(x) <==> t in Core(y)
      {
        assert HasDigit(t) && (t in NumericTokens(Core(x)) <==> t in NumericTokens(Core(y)));
      }
    }
  }

  /** The score of each kind of pair. */
  lemma MatchScoreCases(a: Names, b: Names)
    ensures a.kind != b.kind || a.forms == [] || b.forms == [] ==> MatchScore(a, b) == 0.0
    ensures a.kind == b.kind && a.kind != Person && a.forms != [] && b.forms != [] ==>
              if exists s :: s != "" && s in a.light && s in b.light then MatchScore(a, b) == 1.0
              else MatchScore(a, b) == if exists f :: f in a.forms && f in b.forms then 0.86 else 0.0
    ensures a.kind == b.kind == Person && a.forms != [] && b.forms != [] ==>
              if exists x, y :: x in a.forms && y in b.forms && (IsAbbreviation(x, y) || IsAbbreviation(y, x))
              then MatchScore(a, b) == 0.86
              else MatchScore(a, b) == BestSimilarity(a.forms, b.forms)
  {
    if s :| s != "" && s in a.light && s in b.light {
      assert s in (a.light - {""}) * (b.light - {""});
    }
    if s :| s in (a.light - {""}) * (b.light - {""}) {
      assert s != "" && s in a.light && s in b.light;
    }
    AbbreviationIn(a.forms, b.forms);
  }

  lemma AbbreviationIn(fa: seq<Form>, fb: seq<Form>)
    ensures AnyAbbreviation(fa, fb) <==>
            exists x, y :: x in fa && y in fb && (IsAbbreviation(x, y) || IsAbbreviation(y, x))
  {
    if x, y :| x in fa && y in fb && (IsAbbreviation(x, y) || IsAbbreviation(y, x)) {
      var i :| 0 <= i < |fa| && fa[i] == x;
      var j :| 0 <= j < |fb| && fb[j] == y;
      assert Abbreviates(fa[i], fb[j]);
    }
    if i, j :| 0 <= i < |fa| && 0 <= j < |fb| && Abbreviates(fa[i], fb[j]) {
      assert fa[i] in fa && fb[j] in fb;
    }
  }

  /** Two people, each known by one name, score 0 when neither name abbreviates the other and they are not
      compared: one name for both, a suffix, a token or a number more or other. */
  lemma NotAlikeScoresZero(x: Form, y: Form, light: set<string>)
    requires !Abbreviates(x, y) && !Comparable(x, y)
    ensures MatchScore(Names(Person, light, [x]), Names(Person, light, [y])) == 0.0
  {
    assert [x][..0] == [] && [y][..0] == [];
    assert RowOf(x, [y], SimilarityOf) == RowOf(x, [y][..0], SimilarityOf) + [];
    assert PairsOf([x], [y], SimilarityOf) == PairsOf([x][..0], [y], SimilarityOf) + RowOf(x, [y], SimilarityOf);
    assert PairsOf([x], [y], SimilarityOf) == [];
  }

  /** "ada" abbreviates "ada lovelace", but not "ada jr". */
  lemma AdaIsAdaLovelace(light: set<string>)
    ensures MatchScore(Names(Person, light, [["ada"]]), Names(Person, light, [["ada", "lovelace"]])) == 0.86
    ensures MatchScore(Names(Person, light, [["ada"]]), Names(Person, light, [["ada", "jr"]])) == 0.0
  {
    var x, y, z := ["ada"], ["ada", "lovelace"], ["ada", "jr"];
    assert y[1] in y && |"lovelace"| == 8 && y[0] in y;
    AbbreviationIff(x, y);
    assert Abbreviates([x][0], [y][0]);
    assert forall t :: t in z ==> t == "ada" || t == "jr";
    AbbreviationIff(x, z);
    AbbreviationIff(z, x);
    NotAlikeScoresZero(x, z, light);
  }

  /** "john smith jr" and "john smith sr" are different people, */
  lemma SuffixesDiffer(light: set<string>)
    ensures MatchScore(Names(Person, light, [["john", "smith", "jr"]]), Names(Person, light, [["john", "smith", "sr"]]))
            == 0.0
  {
    var x, y := ["john", "smith", "jr"], ["john", "smith", "sr"];
    assert "jr"[0] != "sr"[0] && x[2] == "jr" && y[2] == "sr";
    CoreAndSuffix(x);
    CoreAndSuffix(y);
    NotAlikeScoresZero(x, y, light);
  }

  /** "mary watson" and "mary jane watson" are, */
  lemma ComponentsDiffer(light: set<string>)
    ensures MatchScore(Names(Person, light, [["mary", "watson"]]), Names(Person, light, [["mary", "jane", "watson"]]))
            == 0.0
  {
    var x, y := ["mary", "watson"], ["mary", "jane", "watson"];
    assert |"watson"| == 6 && x[1] == y[2] == "watson";
    CoreAndSuffix(x);
    CoreAndSuffix(y);
    NotAlikeScoresZero(x, y, light);
  }

  /** and so are "engineer 1" and "engineer 2". */
  lemma NumbersDiffer(light: set<string>)
    ensures MatchScore(Names(Person, light, [["engineer", "1"]]), Names(Person, light, [["engineer", "2"]])) == 0.0
  {
    var x, y := ["engineer", "1"], ["engineer", "2"];
    assert "1"[0] == '1' && "2"[0] == '2' && |"1"| == |"2"| == 1 && |"engineer"| == 8;
    assert x[1] == "1" && y[1] == "2";
    CoreAndSuffix(x);
    CoreAndSuffix(y);
    ComparableIff(x, y);
    assert "1" in x && "1" !in y;
    NotAlikeScoresZero(x, y, light);
  }
}
