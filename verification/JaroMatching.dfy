/** The windowed matching inside Jaro similarity: the greedy left-to-right scan finds a maximum
    matching of equal characters, so its size does not depend on the order of the two strings. */
module JaroMatching {
  import opened Basics

  type Matching = map<nat, nat>

  /** Position `i` of `a` may be matched with position `j` of `b`. */
  predicate Fits(a: string, b: string, window: nat, i: nat, j: nat) {
    i < |a| && j < |b| && i <= j + window && j <= i + window && a[i] == b[j]
  }

  /** A matching of positions of `a` from `from` on, avoiding the used positions of `b`. */
  ghost predicate IsMatching(m: Matching, a: string, b: string, window: nat, from: nat, used: set<nat>) {
    && (forall i :: i in m ==> from <= i && Fits(a, b, window, i, m[i]) && m[i] !in used)
    && (forall i, k :: i in m && k in m && m[i] == m[k] ==> i == k)
  }

  /** The first unused position of `b`, from `j` on and inside the window of `i`, with the character
      `a[i]`. */
  function FirstFree(a: string, b: string, window: nat, i: nat, used: set<nat>, j: nat): (r: Option<nat>)
    requires i < |a| && i <= j + window
    ensures r.Some? ==> Fits(a, b, window, i, r.value) && r.value !in used && j <= r.value
    ensures forall k :: j <= k && k !in used && Fits(a, b, window, i, k) ==> r.Some? && r.value <= k
    decreases |b| - j
  {
    if j >= |b| || j > i + window then None
    else if j !in used && a[i] == b[j] then Some(j)
    else FirstFree(a, b, window, i, used, j + 1)
  }

  function WindowStart(i: nat, window: nat): nat {
    if i >= window then i - window else 0
  }

  /** The greedy scan of `a` from position `i`, as a map from matched to matching position. */
  function Greedy(a: string, b: string, window: nat, i: nat, used: set<nat>): Matching
    requires i <= |a|
    decreases |a| - i
  {
    if i == |a| then map[]
    else
      var j := FirstFree(a, b, window, i, used, WindowStart(i, window));
      if j.None? then Greedy(a, b, window, i + 1, used)
      else Greedy(a, b, window, i + 1, used + {j.value})[i := j.value]
  }

  lemma {:induction false} GreedyIsMatching(a: string, b: string, window: nat, i: nat, used: set<nat>)
    requires i <= |a|
    ensures IsMatching(Greedy(a, b, window, i, used), a, b, window, i, used)
    decreases |a| - i
  {
    if i < |a| {
      var j := FirstFree(a, b, window, i, used, WindowStart(i, window));
      GreedyIsMatching(a, b, window, i + 1, if j.None? then used else used + {j.value});
    }
  }

  lemma Without(m: Matching, k: nat)
    requires k in m
    ensures |m - {k}| == |m| - 1
  {
    assert m.Keys == (m - {k}).Keys + {k};
  }

  /** A pair that used greedy's position `j` takes over the later one that `i` had. */
  lemma Swap(a: string, b: string, window: nat, i: nat, used: set<nat>, j: nat, m: Matching, k: nat)
    requires i < |a| && IsMatching(m, a, b, window, i, used)
    requires FirstFree(a, b, window, i, used, WindowStart(i, window)) == Some(j)
    requires i in m && k in m && m[k] == j && k != i
    ensures IsMatching((m - {i})[k := m[i]], a, b, window, i + 1, used + {j})
    ensures |(m - {i})[k := m[i]]| == |m| - 1
  {
    var swapped := (m - {i})[k := m[i]];
    SwapFits(a, b, window, i, used, j, m, k);
    SwapIsOneToOne(m, i, k);
    forall p | p in swapped
      ensures i + 1 <= p && Fits(a, b, window, p, swapped[p]) && swapped[p] !in used + {j}
    {
      assert p in m && p != i;
      if p != k { assert swapped[p] == m[p] && m[p] != j; }
    }
  }

  lemma SwapIsOneToOne(m: Matching, i: nat, k: nat)
    requires i in m && k in m && k != i
    requires forall p, q :: p in m && q in m && m[p] == m[q] ==> p == q
    ensures |(m - {i})[k := m[i]]| == |m| - 1
    ensures var swapped := (m - {i})[k := m[i]];
            forall p, q :: p in swapped && q in swapped && swapped[p] == swapped[q] ==> p == q
  {
    var swapped := (m - {i})[k := m[i]];
    assert swapped.Keys == (m - {i}).Keys;
    Without(m, i);
  }

  lemma SwapFits(a: string, b: string, window: nat, i: nat, used: set<nat>, j: nat, m: Matching, k: nat)
    requires i < |a| && IsMatching(m, a, b, window, i, used)
    requires FirstFree(a, b, window, i, used, WindowStart(i, window)) == Some(j)
    requires i in m && k in m && m[k] == j && k != i
    ensures j < m[i] && Fits(a, b, window, k, m[i])
  {
    assert Fits(a, b, window, i, m[i]) && Fits(a, b, window, k, j);
    assert j <= m[i];
  }

  /** Any matching loses at most one pair when position `i` and the position greedy gives it are
      taken out. */
  lemma Exchange(a: string, b: string, window: nat, i: nat, used: set<nat>, j: nat, m: Matching)
    returns (rest: Matching)
    requires i < |a| && IsMatching(m, a, b, window, i, used)
    requires FirstFree(a, b, window, i, used, WindowStart(i, window)) == Some(j)
    ensures IsMatching(rest, a, b, window, i + 1, used + {j}) && |m| <= |rest| + 1
  {
    if k :| k in m && k != i && m[k] == j {
      if i in m {
        Swap(a, b, window, i, used, j, m, k);
        rest := (m - {i})[k := m[i]];
      } else {
        Without(m, k);
        rest := m - {k};
      }
    } else if i in m {
      Without(m, i);
      rest := m - {i};
    } else {
      rest := m;
    }
  }

  /** Main result: greedy is maximum among all windowed matchings. */
  lemma {:induction false} GreedyIsMaximum(a: string, b: string, window: nat, i: nat, used: set<nat>, m: Matching)
    requires i <= |a| && IsMatching(m, a, b, window, i, used)
    ensures |m| <= |Greedy(a, b, window, i, used)|
    decreases |a| - i
  {
    if i == |a| {
      NothingPastTheEnd(a, b, window, used, m);
    } else {
      var used', rest := OneStepDown(a, b, window, i, used, m);
      GreedyIsMaximum(a, b, window, i + 1, used', rest);
    }
  }

  /** Past position `i`, the matching loses no more than greedy does. */
  lemma OneStepDown(a: string, b: string, window: nat, i: nat, used: set<nat>, m: Matching)
    returns (used': set<nat>, rest: Matching)
    requires i < |a| && IsMatching(m, a, b, window, i, used)
    ensures IsMatching(rest, a, b, window, i + 1, used')
    ensures |m| - |rest| <= |Greedy(a, b, window, i, used)| - |Greedy(a, b, window, i + 1, used')|
  {
    var j := FirstFree(a, b, window, i, used, WindowStart(i, window));
    if j.None? {
      NothingToMatch(a, b, window, i, used, m);
      used', rest := used, m;
    } else {
      rest := Exchange(a, b, window, i, used, j.value, m);
      used' := used + {j.value};
      GreedyGrows(a, b, window, i, used);
    }
  }

  lemma NothingToMatch(a: string, b: string, window: nat, i: nat, used: set<nat>, m: Matching)
    requires i < |a| && IsMatching(m, a, b, window, i, used)
    requires FirstFree(a, b, window, i, used, WindowStart(i, window)).None?
    ensures IsMatching(m, a, b, window, i + 1, used)
    ensures Greedy(a, b, window, i, used) == Greedy(a, b, window, i + 1, used)
  {
    assert i !in m;
  }

  lemma NothingPastTheEnd(a: string, b: string, window: nat, used: set<nat>, m: Matching)
    requires IsMatching(m, a, b, window, |a|, used)
    ensures |m| == 0
  {
    assert forall k :: k in m ==> Fits(a, b, window, k, m[k]);
    assert m == map[];
  }

  lemma GreedyGrows(a: string, b: string, window: nat, i: nat, used: set<nat>)
    requires i < |a| && FirstFree(a, b, window, i, used, WindowStart(i, window)).Some?
    ensures var j := FirstFree(a, b, window, i, used, WindowStart(i, window)).value;
            |Greedy(a, b, window, i, used)| == |Greedy(a, b, window, i + 1, used + {j})| + 1
  {
    var j := FirstFree(a, b, window, i, used, WindowStart(i, window)).value;
    var g := Greedy(a, b, window, i + 1, used + {j});
    GreedyIsMatching(a, b, window, i + 1, used + {j});
    assert i !in g;
    assert (g[i := j]).Keys == g.Keys + {i};
  }

  // ----- the two sides of a matching have the same size -----

  ghost function Invert(m: Matching): Matching {
    map j | j in m.Values :: (var i :| i in m && m[i] == j; i)
  }

  lemma {:induction false} ValuesCountKeys(m: Matching)
    requires forall i, k :: i in m && k in m && m[i] == m[k] ==> i == k
    ensures |m.Values| == |m|
    decreases |m|
  {
    if m != map[] {
      var i :| i in m;
      var rest := m - {i};
      assert m.Keys == rest.Keys + {i};
      assert m.Values == rest.Values + {m[i]};
      ValuesCountKeys(rest);
    } else {
      assert m.Values == {};
    }
  }

  lemma InvertMatches(a: string, b: string, window: nat, m: Matching)
    requires IsMatching(m, a, b, window, 0, {})
    ensures IsMatching(Invert(m), b, a, window, 0, {}) && |Invert(m)| == |m|
  {
    ValuesCountKeys(m);
    assert Invert(m).Keys == m.Values;
  }

  function AllMatches(a: string, b: string, window: nat): Matching {
    Greedy(a, b, window, 0, {})
  }

  lemma MatchCountSymmetric(a: string, b: string, window: nat)
    ensures |AllMatches(a, b, window)| == |AllMatches(b, a, window)|
  {
    var m, n := AllMatches(a, b, window), AllMatches(b, a, window);
    GreedyIsMatching(a, b, window, 0, {});
    GreedyIsMatching(b, a, window, 0, {});
    InvertMatches(a, b, window, m);
    InvertMatches(b, a, window, n);
    GreedyIsMaximum(b, a, window, 0, {}, Invert(m));
    GreedyIsMaximum(a, b, window, 0, {}, Invert(n));
  }

  // ----- the two scans find the same pairs -----

  /** Every possible pair is in the matching or blocked by an earlier partner on one of its sides. */
  ghost predicate Stable(m: Matching, a: string, b: string, window: nat, from: nat, used: set<nat>) {
    forall i, j :: from <= i && j !in used && Fits(a, b, window, i, j) ==> Blocked(m, i, j)
  }

  ghost predicate Blocked(m: Matching, i: nat, j: nat) {
    (i in m && m[i] <= j) || (exists k :: k in m && k < i && m[k] == j)
  }

  lemma {:induction false} GreedyIsStable(a: string, b: string, window: nat, i: nat, used: set<nat>)
    requires i <= |a|
    ensures Stable(Greedy(a, b, window, i, used), a, b, window, i, used)
    decreases |a| - i
  {
    if i < |a| {
      var free := FirstFree(a, b, window, i, used, WindowStart(i, window));
      var used' := if free.None? then used else used + {free.value};
      var m, rest := Greedy(a, b, window, i, used), Greedy(a, b, window, i + 1, used');
      GreedyIsStable(a, b, window, i + 1, used');
      GreedyIsMatching(a, b, window, i + 1, used');
      assert m == if free.None? then rest else rest[i := free.value];
      forall p, j | i <= p && j !in used && Fits(a, b, window, p, j)
        ensures Blocked(m, p, j)
      {
        if p > i && j !in used' {
          StableLater(rest, m, a, b, window, i, used', free, p, j);
        } else {
          StableNow(m, a, b, window, i, used, free, p, j);
        }
      }
    }
  }

  lemma StableNow(m: Matching, a: string, b: string, window: nat, i: nat, used: set<nat>, free: Option<nat>, p: nat,
                  j: nat)
    requires i < |a| && free == FirstFree(a, b, window, i, used, WindowStart(i, window))
    requires free.Some? ==> i in m && m[i] == free.value
    requires i <= p && j !in used && Fits(a, b, window, p, j) && (p == i || free == Some(j))
    ensures Blocked(m, p, j)
  {
  }

  lemma StableLater(rest: Matching, m: Matching, a: string, b: string, window: nat, i: nat, used: set<nat>,
                    free: Option<nat>, p: nat, j: nat)
    requires Stable(rest, a, b, window, i + 1, used) && i !in rest
    requires m == if free.None? then rest else rest[i := free.value]
    requires i < p && j !in used && Fits(a, b, window, p, j)
    ensures Blocked(m, p, j)
  {
    assert Blocked(rest, p, j);
    if !(p in rest && rest[p] <= j) {
      var k :| k in rest && k < p && rest[k] == j;
      assert k in m && m[k] == j;
    }
  }

  lemma {:induction false} StableIsUnique(m: Matching, n: Matching, a: string, b: string, window: nat, upTo: nat)
    requires IsMatching(m, a, b, window, 0, {}) && Stable(m, a, b, window, 0, {})
    requires IsMatching(n, a, b, window, 0, {}) && Stable(n, a, b, window, 0, {})
    ensures forall i :: i < upTo ==> (i in m <==> i in n) && (i in m ==> m[i] == n[i])
    decreases upTo
  {
    if upTo == 0 {
    } else {
      var i := upTo - 1;
      StableIsUnique(m, n, a, b, window, i);
      if i in m { assert Fits(a, b, window, i, m[i]); }
      if i in n { assert Fits(a, b, window, i, n[i]); }
    }
  }

  lemma InvertIsStable(a: string, b: string, window: nat, m: Matching)
    requires IsMatching(m, a, b, window, 0, {}) && Stable(m, a, b, window, 0, {})
    ensures Stable(Invert(m), b, a, window, 0, {})
  {
    forall j, i | Fits(b, a, window, j, i)
      ensures (j in Invert(m) && Invert(m)[j] <= i) || (exists k :: k in Invert(m) && k < j && Invert(m)[k] == i)
    {
      assert Fits(a, b, window, i, j);
      if i in m && m[i] <= j {
        assert m[i] in Invert(m) && Invert(m)[m[i]] == i;
      } else {
        var k :| k in m && k < i && m[k] == j;
        assert j in Invert(m) && Invert(m)[j] == k;
      }
    }
  }

  lemma StableAreEqual(m: Matching, n: Matching, a: string, b: string, window: nat)
    requires IsMatching(m, a, b, window, 0, {}) && Stable(m, a, b, window, 0, {})
    requires IsMatching(n, a, b, window, 0, {}) && Stable(n, a, b, window, 0, {})
    ensures m == n
  {
    StableIsUnique(m, n, a, b, window, |a|);
    assert forall i :: i in m || i in n ==> i < |a|;
  }

  lemma InvertSides(m: Matching)
    requires forall i, k :: i in m && k in m && m[i] == m[k] ==> i == k
    ensures Invert(m).Keys == m.Values && Invert(m).Values == m.Keys
  {
    forall i | i in m.Keys
      ensures i in Invert(m).Values
    {
      assert m[i] in Invert(m) && Invert(m)[m[i]] == i;
    }
  }

  /** Main result: scanning from the other string finds the same pairs, seen from the other side. */
  lemma ScanDirectionIrrelevant(a: string, b: string, window: nat)
    ensures AllMatches(b, a, window) == Invert(AllMatches(a, b, window))
    ensures AllMatches(b, a, window).Keys == AllMatches(a, b, window).Values
    ensures AllMatches(b, a, window).Values == AllMatches(a, b, window).Keys
  {
    var m, n := AllMatches(a, b, window), AllMatches(b, a, window);
    GreedyIsMatching(a, b, window, 0, {});
    GreedyIsStable(a, b, window, 0, {});
    InvertMatches(a, b, window, m);
    InvertIsStable(a, b, window, m);
    InvertSides(m);
    GreedyIsMatching(b, a, window, 0, {});
    GreedyIsStable(b, a, window, 0, {});
    StableAreEqual(n, Invert(m), b, a, window);
  }

  // ----- the scan with flag arrays -----

  /** The inner scan: the first position of the window that is free and carries the character. */
  method ScanWindow(a: string, b: string, window: nat, i: nat, bMatched: array<bool>, ghost used: set<nat>)
    returns (found: Option<nat>)
    requires i < |a| && bMatched.Length == |b|
    requires bMatched[..] == Flags(|b|, used)
    ensures found == FirstFree(a, b, window, i, used, WindowStart(i, window))
  {
    var hi := if i + window + 1 < |b| then i + window + 1 else |b|;
    var j := WindowStart(i, window);
    while j < hi
      invariant WindowStart(i, window) <= j
      invariant FirstFree(a, b, window, i, used, WindowStart(i, window)) == FirstFree(a, b, window, i, used, j)
    {
      if !bMatched[j] && a[i] == b[j] { return Some(j); }
      j := j + 1;
    }
    return None;
  }

  /** The flags that stand for a set of positions below `n`. */
  function Flags(n: nat, ids: set<nat>): (flags: seq<bool>)
    ensures |flags| == n && forall i: nat :: i < n ==> flags[i] == (i in ids)
  {
    seq(n, i requires 0 <= i < n => i in ids)
  }

  lemma FlagOneMore(n: nat, ids: set<nat>, i: nat)
    requires i < n
    ensures Flags(n, ids + {i}) == Flags(n, ids)[i := true]
  {
  }

  method FlagAt(flags: array<bool>, ghost ids: set<nat>, i: nat)
    requires i < flags.Length && flags[..] == Flags(flags.Length, ids)
    modifies flags
    ensures flags[..] == Flags(flags.Length, ids + {i})
  {
    flags[i] := true;
    FlagOneMore(flags.Length, ids, i);
    assert flags[..] == Flags(flags.Length, ids)[i := true];
  }

  ghost function KeysBefore(all: Matching, i: nat): set<nat> {
    set k | k in all && k < i
  }

  ghost function UsedBefore(all: Matching, i: nat): set<nat> {
    set k | k in all && k < i :: all[k]
  }

  /** The scan stands at `i`: it has used exactly what `all` matches before `i`, counted it, and from
      `i` on greedy still has to find the rest of `all`. */
  ghost predicate ScanAt(a: string, b: string, window: nat, all: Matching, i: nat, matched: set<nat>, used: set<nat>,
                         matches: nat)
  {
    && i <= |a|
    && used == UsedBefore(all, i)
    && matched == KeysBefore(all, i)
    && |all| == matches + |Greedy(a, b, window, i, used)|
    && forall k :: i <= k ==>
         && (k in all <==> k in Greedy(a, b, window, i, used))
         && (k in all ==> all[k] == Greedy(a, b, window, i, used)[k])
  }

  lemma ScanStep(a: string, b: string, window: nat, all: Matching, i: nat, matched: set<nat>, used: set<nat>,
                 matches: nat)
    requires i < |a| && ScanAt(a, b, window, all, i, matched, used, matches)
    ensures match FirstFree(a, b, window, i, used, WindowStart(i, window))
            case None => ScanAt(a, b, window, all, i + 1, matched, used, matches)
            case Some(j) => ScanAt(a, b, window, all, i + 1, matched + {i}, used + {j}, matches + 1)
  {
    var free := FirstFree(a, b, window, i, used, WindowStart(i, window));
    if free.None? {
      GreedyIsMatching(a, b, window, i + 1, used);
      assert i !in all;
      assert UsedBefore(all, i + 1) == used && KeysBefore(all, i + 1) == matched;
    } else {
      GreedyGrows(a, b, window, i, used);
      assert i in all && all[i] == free.value;
      assert UsedBefore(all, i + 1) == used + {free.value} && KeysBefore(all, i + 1) == matched + {i};
    }
  }

  lemma ScanEnds(a: string, b: string, window: nat)
    ensures ScanAt(a, b, window, AllMatches(a, b, window), 0, {}, {}, 0)
    ensures UsedBefore(AllMatches(a, b, window), |a|) == AllMatches(a, b, window).Values
    ensures KeysBefore(AllMatches(a, b, window), |a|) == AllMatches(a, b, window).Keys
  {
    var all := AllMatches(a, b, window);
    assert UsedBefore(all, 0) == {} && KeysBefore(all, 0) == {};
    GreedyIsMatching(a, b, window, 0, {});
    assert forall i :: i in all ==> i < |a|;
    assert UsedBefore(all, |a|) == all.Values;
    assert KeysBefore(all, |a|) == all.Keys;
  }

  /** _jaro_matches: flag the matched positions of both strings and count them. */
  method JaroMatches(a: string, b: string, window: nat)
    returns (matches: nat, aMatched: array<bool>, bMatched: array<bool>)
    ensures matches == |AllMatches(a, b, window)|
    ensures aMatched[..] == Flags(|a|, AllMatches(a, b, window).Keys)
    ensures bMatched[..] == Flags(|b|, AllMatches(a, b, window).Values)
  {
    ghost var all := AllMatches(a, b, window);
    ghost var matched: set<nat>, used: set<nat> := {}, {};
    aMatched := new bool[|a|](_ => false);
    bMatched := new bool[|b|](_ => false);
    matches := 0;
    ScanEnds(a, b, window);
    for i := 0 to |a|
      invariant ScanAt(a, b, window, all, i, matched, used, matches)
      invariant aMatched[..] == Flags(|a|, matched) && bMatched[..] == Flags(|b|, used)
    {
      ScanStep(a, b, window, all, i, matched, used, matches);
      var found := ScanWindow(a, b, window, i, bMatched, used);
      if found.Some? {
        FlagAt(aMatched, matched, i);
        FlagAt(bMatched, used, found.value);
        matches := matches + 1;
        matched, used := matched + {i}, used + {found.value};
      }
    }
  }
}
