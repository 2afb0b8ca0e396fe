/** Jaro and Jaro-Winkler similarity over the greedy matching. */
module Jaro {
  import opened Basics
  import opened JaroMatching

  /** The characters at the flagged positions, in order. */
  function Picked(s: string, flags: seq<bool>): string
    requires |flags| == |s|
  {
    if s == [] then []
    else
      var n := |s| - 1;
      Picked(s[..n], flags[..n]) + if flags[n] then [s[n]] else []
  }

  /** At how many places two equally long strings differ. */
  function Mismatches(x: string, y: string): nat
    requires |x| == |y|
  {
    if x == [] then 0
    else
      var n := |x| - 1;
      Mismatches(x[..n], y[..n]) + if x[n] != y[n] then 1 else 0
  }

  lemma PickedSnoc(s: string, flags: seq<bool>, k: nat)
    requires |flags| == |s| && k < |s|
    ensures Picked(s[..k + 1], flags[..k + 1]) ==
            if flags[k] then Picked(s[..k], flags[..k]) + [s[k]] else Picked(s[..k], flags[..k])
  {
    assert s[..k + 1][..k] == s[..k] && flags[..k + 1][..k] == flags[..k];
  }

  lemma {:induction false} PickedPrefix(s: string, flags: seq<bool>, k: nat)
    requires |flags| == |s| && k <= |s|
    ensures Picked(s[..k], flags[..k]) <= Picked(s, flags)
    decreases |s|
  {
    if k < |s| {
      var n := |s| - 1;
      PickedPrefix(s[..n], flags[..n], k);
      assert s[..n][..k] == s[..k] && flags[..n][..k] == flags[..k];
    } else {
      assert s[..k] == s && flags[..k] == flags;
    }
  }

  lemma {:induction false} PickedLength(s: string, ids: set<nat>)
    requires forall i :: i in ids ==> i < |s|
    ensures |Picked(s, Flags(|s|, ids))| == |ids|
    decreases |s|
  {
    if s == [] {
      assert ids == {};
    } else {
      var n := |s| - 1;
      PickedLength(s[..n], ids - {n});
      assert Flags(|s|, ids)[..n] == Flags(n, ids - {n});
      if n in ids { assert ids == (ids - {n}) + {n}; } else { assert ids == ids - {n}; }
    }
  }

  lemma {:induction false} PickedAll(s: string, ids: set<nat>)
    requires forall i: nat :: i < |s| ==> i in ids
    ensures Picked(s, Flags(|s|, ids)) == s
    decreases |s|
  {
    if s == [] {
    } else {
      var n := |s| - 1;
      PickedAll(s[..n], ids);
      assert Flags(|s|, ids)[..n] == Flags(n, ids);
    }
  }

  lemma {:induction false} MismatchesBounded(x: string, y: string)
    requires |x| == |y|
    ensures Mismatches(x, y) <= |x|
    ensures Mismatches(x, y) == 0 <==> x == y
  {
    if x == [] {
    } else {
      var n := |x| - 1;
      MismatchesBounded(x[..n], y[..n]);
      assert x == x[..n] + [x[n]] && y == y[..n] + [y[n]];
    }
  }

  function Window(a: string, b: string): nat {
    var half := (if |a| >= |b| then |a| else |b|) / 2;
    if half >= 1 then half - 1 else 0
  }

  function Found(a: string, b: string): Matching {
    AllMatches(a, b, Window(a, b))
  }

  lemma FoundSides(a: string, b: string)
    ensures forall i :: i in Found(a, b).Keys ==> i < |a|
    ensures forall j :: j in Found(a, b).Values ==> j < |b|
    ensures |Found(a, b).Values| == |Found(a, b)|
    ensures |Found(a, b)| <= |a| && |Found(a, b)| <= |b|
    ensures |Found(a, b)| == |Found(b, a)|
    ensures |Picked(a, Flags(|a|, Found(a, b).Keys))| == |Picked(b, Flags(|b|, Found(a, b).Values))| == |Found(a, b)|
  {
    var m := Found(a, b);
    GreedyIsMatching(a, b, Window(a, b), 0, {});
    ValuesCountKeys(m);
    PickedLength(a, m.Keys);
    PickedLength(b, m.Values);
    PickedShorter(a, Flags(|a|, m.Keys));
    PickedShorter(b, Flags(|b|, m.Values));
    MatchCountSymmetric(a, b, Window(a, b));
  }

  lemma {:induction false} PickedShorter(s: string, flags: seq<bool>)
    requires |flags| == |s|
    ensures |Picked(s, flags)| <= |s|
  {
    if s == [] {
    } else {
      PickedShorter(s[..|s| - 1], flags[..|s| - 1]);
    }
  }

  /** Matched characters that appear out of order. */
  function OutOfOrder(a: string, b: string): nat {
    FoundSides(a, b);
    Mismatches(Picked(a, Flags(|a|, Found(a, b).Keys)), Picked(b, Flags(|b|, Found(a, b).Values)))
  }

  function JaroOf(a: string, b: string): real {
    var m := |Found(a, b)|;
    if a == b then 1.0
    else if |a| == 0 || |b| == 0 || m == 0 then 0.0
    else Mean(m, |a|, |b|, OutOfOrder(a, b) / 2)
  }

  /** The three ratios of Jaro's formula. */
  function Mean(m: nat, lenA: nat, lenB: nat, t: nat): real
    requires m > 0 && lenA > 0 && lenB > 0
  {
    (m as real / lenA as real + m as real / lenB as real + (m - t) as real / m as real) / 3.0
  }

  function CommonPrefix(a: string, b: string, limit: nat): nat
    decreases limit
  {
    if limit == 0 || a == [] || b == [] || a[0] != b[0] then 0
    else 1 + CommonPrefix(a[1..], b[1..], limit - 1)
  }

  const PREFIX_WEIGHT: real := 0.1
  const MAX_PREFIX: nat := 4

  function JaroWinklerOf(a: string, b: string): real {
    Boosted(JaroOf(a, b), CommonPrefix(a, b, MAX_PREFIX))
  }

  function Boosted(base: real, prefix: nat): real {
    base + prefix as real * PREFIX_WEIGHT * (1.0 - base)
  }

  lemma MismatchesSnoc(x: string, y: string, c: char, d: char)
    requires |x| == |y|
    ensures Mismatches(x + [c], y + [d]) == Mismatches(x, y) + if c != d then 1 else 0
  {
  }

  // ----- the loops -----

  /** The inner loop: skip to the next matched position of `b`, which there is. */
  method NextMatched(b: string, bMatched: array<bool>, start: nat) returns (k: nat)
    requires bMatched.Length == |b| && start <= |b|
    requires |Picked(b[..start], bMatched[..start])| < |Picked(b, bMatched[..])|
    ensures start <= k < |b| && bMatched[k]
    ensures Picked(b[..k], bMatched[..][..k]) == Picked(b[..start], bMatched[..start])
  {
    ghost var g := bMatched[..];
    k := start;
    assert b[..|b|] == b && g[..|b|] == g;
    assert g[..start] == bMatched[..start];
    while !bMatched[k]
      invariant start <= k < |b| && Picked(b[..k], g[..k]) == Picked(b[..start], g[..start])
      decreases |b| - k
    {
      PickedSnoc(b, g, k);
      k := k + 1;
    }
  }

  /** _jaro_transpositions: the second pointer walks the matched positions of `b` and never leaves
      the string. */
  method Transpositions(a: string, b: string, aMatched: array<bool>, bMatched: array<bool>) returns (t: nat)
    requires aMatched.Length == |a| && bMatched.Length == |b|
    requires |Picked(a, aMatched[..])| == |Picked(b, bMatched[..])|
    ensures t == Mismatches(Picked(a, aMatched[..]), Picked(b, bMatched[..])) / 2
  {
    var swaps: nat := 0;
    var k: nat := 0;
    ghost var f, g := aMatched[..], bMatched[..];
    for i := 0 to |a|
      invariant k <= |b| && |Picked(a[..i], f[..i])| == |Picked(b[..k], g[..k])|
      invariant swaps == Mismatches(Picked(a[..i], f[..i]), Picked(b[..k], g[..k]))
    {
      PickedSnoc(a, f, i);
      if aMatched[i] {
        PickedPrefix(a, f, i + 1);
        ghost var before := Picked(b[..k], g[..k]);
        assert bMatched[..k] == g[..k];
        k := NextMatched(b, bMatched, k);
        PickedSnoc(b, g, k);
        MismatchesSnoc(Picked(a[..i], f[..i]), before, a[i], b[k]);
        if a[i] != b[k] { swaps := swaps + 1; }
        k := k + 1;
      }
    }
    assert a[..|a|] == a && f[..|a|] == f;
    PickedPrefix(b, g, k);
    assert Picked(b[..k], g[..k]) == Picked(b, g);
    return swaps / 2;
  }

  method JaroSimilarity(a: string, b: string) returns (r: real)
    ensures r == JaroOf(a, b)
  {
    if a == b { return 1.0; }
    if |a| == 0 || |b| == 0 { return 0.0; }
    var m, aMatched, bMatched := JaroMatches(a, b, Window(a, b));
    if m == 0 { return 0.0; }
    FoundSides(a, b);
    var t := Transpositions(a, b, aMatched, bMatched);
    return Mean(m, |a|, |b|, t);
  }

  method JaroWinkler(a: string, b: string) returns (r: real)
    ensures r == JaroWinklerOf(a, b)
  {
    var base := JaroSimilarity(a, b);
    var prefix: nat := 0;
    while prefix < |a| && prefix < |b| && a[prefix] == b[prefix] && prefix < MAX_PREFIX
      invariant prefix <= |a| && prefix <= |b| && prefix <= MAX_PREFIX
      invariant CommonPrefix(a, b, MAX_PREFIX) == prefix + CommonPrefix(a[prefix..], b[prefix..], MAX_PREFIX - prefix)
    {
      assert a[prefix..][1..] == a[prefix + 1..] && b[prefix..][1..] == b[prefix + 1..];
      prefix := prefix + 1;
    }
    return Boosted(base, prefix);
  }

  // ----- what the numbers mean -----

  lemma Ratio(x: int, y: int)
    requires 0 <= x <= y && 0 < y
    ensures 0.0 <= x as real / y as real <= 1.0
    ensures x as real / y as real == 1.0 <==> x == y
  {
  }

  lemma JaroBounds(a: string, b: string)
    ensures 0.0 <= JaroOf(a, b) <= 1.0
  {
    FoundSides(a, b);
    var m := |Found(a, b)|;
    if a != b && m > 0 {
      MismatchesBounded(Picked(a, Flags(|a|, Found(a, b).Keys)), Picked(b, Flags(|b|, Found(a, b).Values)));
      Ratio(m, |a|);
      Ratio(m, |b|);
      Ratio(m - OutOfOrder(a, b) / 2, m);
    }
  }

  /** A perfect matching of equal characters leaves room for no single difference: the positions of
      the odd character out would have to map into one position fewer. */
  lemma NoSingleMismatch(a: string, b: string, window: nat, m: Matching, r: nat)
    requires |a| == |b| && IsMatching(m, a, b, window, 0, {}) && (forall i: nat :: i < |a| ==> i in m)
    requires r < |a| && forall i: nat :: i < |a| && i != r ==> a[i] == b[i]
    ensures a[r] == b[r]
  {
    var c := a[r];
    var from := set i: nat | i < |a| && a[i] == c;
    var to := set j: nat | j < |b| && b[j] == c;
    if b[r] != c {
      assert from == to + {r};
      ImageFits(m, from, to);
      assert false;
    }
  }

  /** An injective map takes a set into no smaller set. */
  lemma {:induction false} ImageFits(m: Matching, from: set<nat>, to: set<nat>)
    requires forall i :: i in from ==> i in m && m[i] in to
    requires forall i, k :: i in m && k in m && m[i] == m[k] ==> i == k
    ensures |from| <= |to|
    decreases |from|
  {
    if i :| i in from {
      ImageFits(m, from - {i}, to - {m[i]});
    }
  }

  /** One difference or none: where two equally long strings may differ. */
  lemma {:induction false} OneMismatch(x: string, y: string) returns (r: nat)
    requires |x| == |y| && Mismatches(x, y) == 1
    ensures r < |x| && x[r] != y[r] && forall i: nat :: i < |x| && i != r ==> x[i] == y[i]
    decreases |x|
  {
    var n := |x| - 1;
    if x[n] != y[n] {
      r := n;
      MismatchesBounded(x[..n], y[..n]);
      assert forall i: nat :: i < n ==> x[i] == x[..n][i] && y[i] == y[..n][i];
    } else {
      r := OneMismatch(x[..n], y[..n]);
      assert forall i: nat :: i < n ==> x[i] == x[..n][i] && y[i] == y[..n][i];
    }
  }

  /** Everything matched and fewer than two characters out of order means equal strings. */
  lemma PerfectMatchIsEquality(a: string, b: string)
    requires |Found(a, b)| == |a| == |b| && OutOfOrder(a, b) < 2
    ensures a == b
  {
    var m := Found(a, b);
    FoundSides(a, b);
    GreedyIsMatching(a, b, Window(a, b), 0, {});
    FullSet(m.Keys, |a|);
    FullSet(m.Values, |b|);
    PickedAll(a, m.Keys);
    PickedAll(b, m.Values);
    MismatchesBounded(a, b);
    if Mismatches(a, b) == 1 {
      var r := OneMismatch(a, b);
      NoSingleMismatch(a, b, Window(a, b), m, r);
      assert false;
    }
  }

  lemma {:induction false} FullSet(ids: set<nat>, n: nat)
    requires (forall i :: i in ids ==> i < n) && |ids| == n
    ensures forall i: nat :: i < n ==> i in ids
    decreases n
  {
    if n > 0 {
      if n - 1 in ids {
        var less := ids - {n - 1};
        FullSet(less, n - 1);
        assert forall i: nat :: i in less ==> i in ids;
        forall i: nat | i < n
          ensures i in ids
        {
          assert i == n - 1 || i in less;
        }
      } else {
        Below(ids, n - 1);
        assert false;
      }
    }
  }

  lemma {:induction false} Below(ids: set<nat>, n: nat)
    requires forall i :: i in ids ==> i < n
    ensures |ids| <= n
    decreases n
  {
    if n > 0 {
      Below(ids - {n - 1}, n - 1);
    } else {
      assert ids == {};
    }
  }

  /** Jaro is 1 exactly on equal strings. */
  lemma JaroOneIffEqual(a: string, b: string)
    ensures JaroOf(a, b) == 1.0 <==> a == b
  {
    FoundSides(a, b);
    var m := |Found(a, b)|;
    if a != b && m > 0 {
      MismatchesBounded(Picked(a, Flags(|a|, Found(a, b).Keys)), Picked(b, Flags(|b|, Found(a, b).Values)));
      var t := OutOfOrder(a, b) / 2;
      Ratio(m, |a|);
      Ratio(m, |b|);
      Ratio(m - t, m);
      if m == |a| == |b| && t == 0 {
        PerfectMatchIsEquality(a, b);
        assert false;
      }
    }
  }

  /** Jaro-Winkler lies between Jaro and 1, and reaches 1 only on equal strings. */
  lemma JaroWinklerBounds(a: string, b: string)
    ensures JaroOf(a, b) <= JaroWinklerOf(a, b) <= 1.0
    ensures JaroWinklerOf(a, b) == 1.0 <==> a == b
  {
    JaroBounds(a, b);
    JaroOneIffEqual(a, b);
    PrefixBounded(a, b, MAX_PREFIX);
    var share := CommonPrefix(a, b, MAX_PREFIX) as real * PREFIX_WEIGHT;
    assert 0.0 <= share <= 0.4;
    Between(share, 1.0 - JaroOf(a, b));
  }

  lemma Between(share: real, rest: real)
    requires 0.0 <= share <= 0.4 && 0.0 <= rest
    ensures 0.0 <= share * rest <= 0.4 * rest
  {
  }

  lemma {:induction false} PrefixBounded(a: string, b: string, limit: nat)
    ensures CommonPrefix(a, b, limit) <= limit
    decreases limit
  {
    if limit != 0 && a != [] && b != [] && a[0] == b[0] {
      PrefixBounded(a[1..], b[1..], limit - 1);
    }
  }

  lemma {:induction false} MismatchesSymmetric(x: string, y: string)
    requires |x| == |y|
    ensures Mismatches(x, y) == Mismatches(y, x)
  {
    if x == [] {
    } else {
      MismatchesSymmetric(x[..|x| - 1], y[..|y| - 1]);
    }
  }

  lemma OutOfOrderSymmetric(a: string, b: string)
    ensures |Found(a, b)| == |Found(b, a)| && OutOfOrder(a, b) == OutOfOrder(b, a)
  {
    ScanDirectionIrrelevant(a, b, Window(a, b));
    FoundSides(a, b);
    MismatchesSymmetric(Picked(a, Flags(|a|, Found(a, b).Keys)), Picked(b, Flags(|b|, Found(a, b).Values)));
  }

  /** Neither similarity depends on the order of the two names. */
  lemma SimilaritySymmetric(a: string, b: string)
    ensures JaroOf(a, b) == JaroOf(b, a)
    ensures JaroWinklerOf(a, b) == JaroWinklerOf(b, a)
  {
    OutOfOrderSymmetric(a, b);
    var m := |Found(a, b)|;
    if |a| > 0 && |b| > 0 && m > 0 {
      MeanSymmetric(m, |a|, |b|, OutOfOrder(a, b) / 2);
    }
    assert JaroOf(a, b) == JaroOf(b, a);
    PrefixSymmetric(a, b, MAX_PREFIX);
  }

  lemma MeanSymmetric(m: nat, lenA: nat, lenB: nat, t: nat)
    requires m > 0 && lenA > 0 && lenB > 0
    ensures Mean(m, lenA, lenB, t) == Mean(m, lenB, lenA, t)
  {
  }

  lemma {:induction false} PrefixSymmetric(a: string, b: string, limit: nat)
    ensures CommonPrefix(a, b, limit) == CommonPrefix(b, a, limit)
    decreases limit
  {
    if limit != 0 && a != [] && b != [] && a[0] == b[0] {
      PrefixSymmetric(a[1..], b[1..], limit - 1);
    }
  }

  // ----- the formula, and one value -----

  /** How far apart matched characters may be: half the longer length, less one. */
  lemma WindowIs(a: string, b: string)
    ensures |a| < 4 && |b| < 4 ==> Window(a, b) == 0
    ensures |a| >= |b| && |a| >= 4 ==> Window(a, b) == |a| / 2 - 1
    ensures |b| >= |a| && |b| >= 4 ==> Window(a, b) == |b| / 2 - 1
  {
  }

  /** Jaro's formula: three times the value is the matched share of either string and, of the matched
      characters, the share left when half of those out of order, rounded down, are taken away. */
  lemma JaroFormula(a: string, b: string)
    requires a != b
    ensures var m, t := |Found(a, b)|, OutOfOrder(a, b) / 2;
            && (m == 0 ==> JaroOf(a, b) == 0.0)
            && (m > 0 ==> |a| > 0 && |b| > 0
                          && 3.0 * JaroOf(a, b) == m as real / |a| as real + m as real / |b| as real
                                                   + (m as real - t as real) / m as real)
  {
    FoundSides(a, b);
  }

  /** Winkler's: a tenth of what is missing to 1 for each of the first four characters in common. */
  lemma WinklerFormula(a: string, b: string, jaro: real, prefix: nat)
    requires jaro == JaroOf(a, b) && prefix == CommonPrefix(a, b, 4)
    ensures 10.0 * (JaroWinklerOf(a, b) - jaro) == prefix as real * (1.0 - jaro)
  {
    BoostedIs(jaro, prefix);
  }

  lemma BoostedIs(base: real, k: nat)
    ensures 10.0 * (Boosted(base, k) - base) == k as real * (1.0 - base)
  {
    var share := k as real;
    assert share * PREFIX_WEIGHT * (1.0 - base) == PREFIX_WEIGHT * (share * (1.0 - base));
  }

  /** The common prefix, up to a limit. */
  lemma {:induction false} PrefixIs(a: string, b: string, limit: nat)
    ensures var k := CommonPrefix(a, b, limit);
            && k <= limit && k <= |a| && k <= |b| && a[..k] == b[..k]
            && (k == limit || k == |a| || k == |b| || a[k] != b[k])
    decreases limit
  {
    if limit == 0 || a == [] || b == [] || a[0] != b[0] {
    } else {
      var k := CommonPrefix(a[1..], b[1..], limit - 1);
      PrefixIs(a[1..], b[1..], limit - 1);
      assert a[..k + 1] == [a[0]] + a[1..][..k] && b[..k + 1] == [b[0]] + b[1..][..k];
    }
  }

  lemma SwappedEnds(a: string, b: string)
    requires a == "abcd" && b == "abdc"
    ensures Found(a, b) == map[0 := 0, 1 := 1, 2 := 3, 3 := 2]
  {
    assert Window(a, b) == 1;
    assert FirstFree(a, b, 1, 3, {0, 1, 3}, 2) == Some(2);
    assert Greedy(a, b, 1, 4, {0, 1, 3} + {2}) == map[];
    assert Greedy(a, b, 1, 3, {0, 1, 3}) == map[3 := 2];
    assert FirstFree(a, b, 1, 2, {0, 1}, 1) == Some(3) by {
      assert FirstFree(a, b, 1, 2, {0, 1}, 2) == FirstFree(a, b, 1, 2, {0, 1}, 3);
    }
    assert {0, 1} + {3} == {0, 1, 3};
    assert Greedy(a, b, 1, 2, {0, 1}) == map[2 := 3, 3 := 2];
    assert FirstFree(a, b, 1, 1, {0}, 0) == Some(1);
    assert {0} + {1} == {0, 1};
    assert Greedy(a, b, 1, 1, {0}) == map[1 := 1, 2 := 3, 3 := 2];
    assert FirstFree(a, b, 1, 0, {}, 0) == Some(0);
    assert {} + {0} == {0};
  }

  lemma SwappedEndsOutOfOrder(a: string, b: string)
    requires a == "abcd" && b == "abdc"
    ensures |Found(a, b)| == 4 && OutOfOrder(a, b) == 2
  {
    SwappedEnds(a, b);
    var m := Found(a, b);
    assert m.Keys == {0, 1, 2, 3};
    assert m[0] in m.Values && m[1] in m.Values && m[2] in m.Values && m[3] in m.Values;
    PickedAll(a, m.Keys);
    PickedAll(b, m.Values);
    SwappedEndsDiffer(a, b);
  }

  lemma SwappedEndsDiffer(a: string, b: string)
    requires a == "abcd" && b == "abdc"
    ensures Mismatches(a, b) == 2
  {
    assert a[..3] == "abc" && b[..3] == "abd" && a[..3][..2] == b[..3][..2];
    MismatchesBounded(a[..3][..2], b[..3][..2]);
    assert Mismatches(a[..3], b[..3]) == 1;
  }

  /** The two ends swapped: all four match, two out of order, so eleven twelfths, and with the two leading
      characters fourteen fifteenths. */
  lemma SwappedEndsScore()
    ensures 12.0 * JaroOf("abcd", "abdc") == 11.0 && 15.0 * JaroWinklerOf("abcd", "abdc") == 14.0
  {
    var a, b := "abcd", "abdc";
    assert a[2] != b[2];
    SwappedEndsOutOfOrder(a, b);
    assert JaroOf(a, b) == Mean(4, 4, 4, 1);
    SwappedEndsPrefix(a, b);
    BoostedIs(JaroOf(a, b), 2);
  }

  lemma SwappedEndsPrefix(a: string, b: string)
    requires a == "abcd" && b == "abdc"
    ensures CommonPrefix(a, b, 4) == 2
  {
    PrefixIs(a, b, 4);
    assert a[0] == b[0] && a[1] == b[1] && a[2] != b[2];
  }
}
