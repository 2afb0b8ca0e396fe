/** The schema-migration ledger: the reconciler that compares it with a build's manifest, and the
    migrate and baseline runs over a volume, with a crash allowed between any two transactions. */
module MigrationLedger {
  import opened Basics

  type Id = string

  // ----- the reconciler -----

  datatype Status = Status(inSync: bool, pending: seq<Id>, extra: seq<Id>, outOfOrder: seq<Id>)

  function Elems(ids: seq<Id>): set<Id> {
    set x | x in ids
  }

  ghost predicate NoDup(ids: seq<Id>) {
    forall i, j :: 0 <= i < j < |ids| ==> ids[i] != ids[j]
  }

  /** The ids not in `known`, in order. */
  function Without(ids: seq<Id>, known: set<Id>): seq<Id> {
    if ids == [] then [] else (if ids[0] in known then [] else [ids[0]]) + Without(ids[1..], known)
  }

  /** What out-of-order means: an entry is missing although a later one was applied. */
  ghost function OutOfOrder(manifest: seq<Id>, applied: set<Id>): seq<Id> {
    if manifest == [] then []
    else (if manifest[0] !in applied && exists m :: m in manifest[1..] && m in applied then [manifest[0]] else [])
         + OutOfOrder(manifest[1..], applied)
  }

  /** How the reconciler lists them: missing entries before a given index. */
  function MissingBefore(manifest: seq<Id>, applied: set<Id>, last: int): seq<Id> {
    if manifest == [] then []
    else (if manifest[0] !in applied && 0 < last then [manifest[0]] else [])
         + MissingBefore(manifest[1..], applied, last - 1)
  }

  ghost predicate LastApplied(manifest: seq<Id>, applied: set<Id>, last: int) {
    && last < |manifest|
    && (last >= 0 ==> manifest[last] in applied)
    && forall i :: 0 <= i < |manifest| && last < i ==> manifest[i] !in applied
  }

  lemma {:induction false} MissingBeforeIsOutOfOrder(manifest: seq<Id>, applied: set<Id>, last: int)
    requires LastApplied(manifest, applied, last)
    ensures MissingBefore(manifest, applied, last) == OutOfOrder(manifest, applied)
  {
    if manifest == [] {
    } else {
      var rest := manifest[1..];
      if last > 0 {
        assert rest[last - 1] in applied;
      }
      assert LastApplied(rest, applied, last - 1);
      MissingBeforeIsOutOfOrder(rest, applied, last - 1);
    }
  }

  /** What is listed, and in which order: an id is pending or extra when the other side lacks it, and the list
      of a list in two parts is that of the first and then that of the second. */
  lemma WithoutIs(front: seq<Id>, back: seq<Id>, known: set<Id>, x: Id)
    ensures x in Without(front, known) <==> x in front && x !in known
    ensures Without([x], known) == if x in known then [] else [x]
    ensures Without(front + back, known) == Without(front, known) + Without(back, known)
  {
    WithoutHas(front, known, x);
    WithoutJoins(front, back, known);
    assert [x][1..] == [];
  }

  lemma {:induction false} WithoutHas(ids: seq<Id>, known: set<Id>, x: Id)
    ensures x in Without(ids, known) <==> x in ids && x !in known
  {
    if ids != [] {
      WithoutHas(ids[1..], known, x);
      assert x in ids <==> x == ids[0] || x in ids[1..];
    }
  }

  lemma {:induction false} WithoutJoins(front: seq<Id>, back: seq<Id>, known: set<Id>)
    ensures Without(front + back, known) == Without(front, known) + Without(back, known)
  {
    if front == [] {
      assert front + back == back;
    } else {
      WithoutJoins(front[1..], back, known);
      assert (front + back)[0] == front[0] && (front + back)[1..] == front[1..] + back;
      var head := if front[0] in known then [] else [front[0]];
      PutInFront(head, Without(front[1..], known), Without(back, known));
    }
  }

  lemma PutInFront(head: seq<Id>, front: seq<Id>, back: seq<Id>)
    ensures head + (front + back) == (head + front) + back
  {
  }

  /** An entry is out of order exactly when it was not applied although a later one was. */
  lemma {:induction false} OutOfOrderIff(manifest: seq<Id>, applied: set<Id>, x: Id)
    ensures x in OutOfOrder(manifest, applied) <==>
            exists i, j :: 0 <= i < j < |manifest| && manifest[i] == x && x !in applied && manifest[j] in applied
  {
    if manifest == [] {
    } else {
      var rest := manifest[1..];
      OutOfOrderIff(rest, applied, x);
      if x in OutOfOrder(rest, applied) {
        var i, j :| 0 <= i < j < |rest| && rest[i] == x && x !in applied && rest[j] in applied;
        assert manifest[i + 1] == x && manifest[j + 1] in applied;
      }
      if manifest[0] == x && x !in applied && exists m :: m in rest && m in applied {
        var m :| m in rest && m in applied;
        var j :| 0 <= j < |rest| && rest[j] == m;
        assert manifest[0] == x && manifest[j + 1] in applied;
      }
      if i, j :| 0 <= i < j < |manifest| && manifest[i] == x && x !in applied && manifest[j] in applied {
        assert rest[j - 1] == manifest[j];
        if i > 0 { assert rest[i - 1] == x; }
      }
    }
  }

  method ComputeMigrationStatus(manifest: seq<Id>, ledgerIds: seq<Id>) returns (s: Status)
    ensures s.pending == Without(manifest, Elems(ledgerIds))
    ensures s.extra == Without(ledgerIds, Elems(manifest))
    ensures s.outOfOrder == OutOfOrder(manifest, Elems(ledgerIds))
    ensures s.inSync <==> Elems(ledgerIds) == Elems(manifest)
  {
    var applied := Elems(ledgerIds);
    var pending := Without(manifest, applied);
    var extra := Without(ledgerIds, Elems(manifest));
    var last := -1;
    for idx := 0 to |manifest|
      invariant last < idx && (last >= 0 ==> manifest[last] in applied)
      invariant forall i :: 0 <= i < idx && last < i ==> manifest[i] !in applied
    {
      if manifest[idx] in applied { last := idx; }
    }
    MissingBeforeIsOutOfOrder(manifest, applied, last);
    WithoutIsEmptyIff(manifest, applied);
    WithoutIsEmptyIff(ledgerIds, Elems(manifest));
    s := Status(pending == [] && extra == [], pending, extra, MissingBefore(manifest, applied, last));
  }

  lemma {:induction false} WithoutIsEmptyIff(ids: seq<Id>, known: set<Id>)
    ensures Without(ids, known) == [] <==> Elems(ids) <= known
  {
    if ids == [] {
    } else {
      WithoutIsEmptyIff(ids[1..], known);
      assert Elems(ids) == {ids[0]} + Elems(ids[1..]);
    }
  }

  // ----- no extra, nothing out of order: exactly the prefixes -----

  /** Exactly the first k entries are applied. */
  ghost predicate AppliedUpTo(manifest: seq<Id>, applied: set<Id>, k: nat) {
    forall i :: 0 <= i < |manifest| ==> (manifest[i] in applied <==> i < k)
  }

  lemma {:induction false} InOrderHasCut(manifest: seq<Id>, applied: set<Id>) returns (k: nat)
    requires OutOfOrder(manifest, applied) == []
    ensures k <= |manifest| && AppliedUpTo(manifest, applied, k)
  {
    if manifest == [] {
      k := 0;
    } else if manifest[0] !in applied {
      k := 0;
      forall i | 0 <= i < |manifest|
        ensures manifest[i] !in applied
      {
        if i > 0 { assert manifest[i] == manifest[1..][i - 1]; }
      }
    } else {
      var rest := manifest[1..];
      var r := InOrderHasCut(rest, applied);
      k := r + 1;
      forall i | 0 < i < |manifest|
        ensures manifest[i] in applied <==> i < k
      {
        assert manifest[i] == rest[i - 1];
      }
    }
  }

  lemma {:induction false} CutIsInOrder(manifest: seq<Id>, applied: set<Id>, k: nat)
    requires AppliedUpTo(manifest, applied, k)
    ensures OutOfOrder(manifest, applied) == []
    ensures k <= |manifest| ==> Without(manifest, applied) == manifest[k..]
  {
    if manifest != [] {
      var rest := manifest[1..];
      if k == 0 {
        assert AppliedUpTo(rest, applied, 0);
        CutIsInOrder(rest, applied, 0);
        assert manifest == [manifest[0]] + rest;
      } else {
        assert AppliedUpTo(rest, applied, k - 1) by {
          forall i | 0 <= i < |rest|
            ensures rest[i] in applied <==> i < k - 1
          {
            assert rest[i] == manifest[i + 1];
          }
        }
        CutIsInOrder(rest, applied, k - 1);
        assert k <= |manifest| ==> manifest[k..] == rest[k - 1..];
      }
    }
  }

  lemma PrefixIsCut(manifest: seq<Id>, k: nat)
    requires NoDup(manifest) && k <= |manifest|
    ensures AppliedUpTo(manifest, Elems(manifest[..k]), k)
  {
  }

  /** Main result on the reconciler: for a manifest without repeats, nothing extra and nothing out of
      order says exactly that the ledger is a prefix of the manifest. */
  lemma CleanIffPrefix(manifest: seq<Id>, applied: set<Id>)
    requires NoDup(manifest)
    ensures applied <= Elems(manifest) && OutOfOrder(manifest, applied) == []
            <==> exists k: nat :: k <= |manifest| && applied == Elems(manifest[..k])
  {
    if applied <= Elems(manifest) && OutOfOrder(manifest, applied) == [] {
      var k := InOrderHasCut(manifest, applied);
      forall x
        ensures x in applied <==> x in Elems(manifest[..k])
      {
        if x in applied {
          var i :| 0 <= i < |manifest| && manifest[i] == x;
          assert manifest[..k][i] == x;
        }
      }
      assert applied == Elems(manifest[..k]);
    }
    if k: nat :| k <= |manifest| && applied == Elems(manifest[..k]) {
      PrefixIsCut(manifest, k);
      CutIsInOrder(manifest, applied, k);
    }
  }

  // ----- the boot gate -----

  /** SchemaDriftError; `recoverable` selects the "run migrate" remedy. */
  datatype Drift = Drift(detail: Status, recoverable: bool)

  /** Passes exactly when the ledger equals the manifest as a set, and tells the operator to migrate
      exactly when the ledger is a prefix of it. */
  method Evaluate(manifest: seq<Id>, ledgerIds: seq<Id>) returns (r: Result<(), Drift>)
    requires NoDup(manifest)
    ensures r.Ok? <==> Elems(ledgerIds) == Elems(manifest)
    ensures r.Err? ==> (r.error.recoverable <==>
                        exists k: nat :: k <= |manifest| && Elems(ledgerIds) == Elems(manifest[..k]))
    ensures r.Err? ==>
              && r.error.detail.pending == Without(manifest, Elems(ledgerIds))
              && r.error.detail.extra == Without(ledgerIds, Elems(manifest))
              && r.error.detail.outOfOrder == OutOfOrder(manifest, Elems(ledgerIds)) && !r.error.detail.inSync
  {
    var s := ComputeMigrationStatus(manifest, ledgerIds);
    if s.inSync { return Ok(()); }
    WithoutIsEmptyIff(ledgerIds, Elems(manifest));
    CleanIffPrefix(manifest, Elems(ledgerIds));
    r := Err(Drift(s, s.extra == [] && s.outOfOrder == []));
  }

  // ----- runs over a volume -----

  /** `ran` lists the files whose SQL took effect, in order; `ledger` is None while the table is missing. */
  datatype State = State(ran: seq<Id>, ledger: Option<set<Id>>)

  ghost predicate Refused(manifest: seq<Id>, s: State) {
    s.ledger.None? || !(s.ledger.value <= Elems(manifest)) || OutOfOrder(manifest, s.ledger.value) != []
  }

  /** A migrate run that gets `stop` transactions committed before it dies, or completes if there are
      no more than that to do. */
  ghost function Migrated(manifest: seq<Id>, s: State, stop: nat): State {
    if Refused(manifest, s) then s
    else
      var todo := Without(manifest, s.ledger.value);
      var done := if stop < |todo| then todo[..stop] else todo;
      State(s.ran + done, Some(s.ledger.value + Elems(done)))
  }

  /** Baseline creates the table in one transaction and stamps every row in a second; `cut` is a
      crash between the two. */
  function Baselined(manifest: seq<Id>, s: State, cut: bool): State {
    var rows := if s.ledger.Some? then s.ledger.value else {};
    State(s.ran, Some(if cut then rows else rows + Elems(manifest)))
  }

  /** A baseline runs no file, keeps every ledger row, and stamps the whole manifest unless it is cut. */
  lemma BaselineStamps(manifest: seq<Id>, s: State, cut: bool, x: Id)
    ensures var s' := Baselined(manifest, s, cut);
            && s'.ran == s.ran && s'.ledger.Some?
            && (x in s'.ledger.value <==> (s.ledger.Some? && x in s.ledger.value) || (!cut && x in manifest))
  {
  }

  /** Builds carry ever longer prefixes of one append-only spine; any build, older or newer than the
      volume, may be deployed at any time. */
  datatype Step = Migrate(build: nat, stop: nat) | Baseline(build: nat, cut: bool)

  /** Baseline is for a volume that is at the build's own head. */
  ghost predicate Legal(spine: seq<Id>, s: State, step: Step) {
    step.build <= |spine| && (step.Baseline? ==> s.ran == spine[..step.build])
  }

  ghost function Apply(spine: seq<Id>, s: State, step: Step): State
    requires Legal(spine, s, step)
  {
    match step
    case Migrate(build, stop) => Migrated(spine[..build], s, stop)
    case Baseline(build, cut) => Baselined(spine[..build], s, cut)
  }

  ghost predicate LegalRun(spine: seq<Id>, s: State, steps: seq<Step>)
    decreases |steps|
  {
    steps == [] || (Legal(spine, s, steps[0]) && LegalRun(spine, Apply(spine, s, steps[0]), steps[1..]))
  }

  ghost function Run(spine: seq<Id>, s: State, steps: seq<Step>): State
    requires LegalRun(spine, s, steps)
    decreases |steps|
  {
    if steps == [] then s else Run(spine, Apply(spine, s, steps[0]), steps[1..])
  }

  /** The volume holds a prefix of the spine, each file once, and the ledger, if there is one, says so. */
  ghost predicate Coherent(spine: seq<Id>, s: State) {
    s.ran <= spine && (s.ledger.Some? ==> s.ledger.value == Elems(s.ran))
  }

  lemma RefusedIffBehind(spine: seq<Id>, s: State, build: nat)
    requires NoDup(spine) && Coherent(spine, s) && build <= |spine| && s.ledger.Some?
    ensures Refused(spine[..build], s) <==> build < |s.ran|
    ensures build >= |s.ran| ==> Without(spine[..build], s.ledger.value) == spine[|s.ran|..build]
  {
    var manifest, k := spine[..build], |s.ran|;
    if build < k {
      assert spine[build] == s.ran[build];
      assert spine[build] in s.ledger.value && spine[build] !in Elems(manifest);
    } else {
      assert manifest[..k] == s.ran;
      PrefixIsCut(manifest, k);
      CutIsInOrder(manifest, Elems(s.ran), k);
      assert manifest[k..] == spine[k..build];
    }
  }

  /** What one migrate run of any build, cut anywhere, does to a coherent volume. */
  lemma MigrateAdvances(spine: seq<Id>, s: State, build: nat, stop: nat)
    requires NoDup(spine) && Coherent(spine, s) && build <= |spine|
    ensures var s' := Migrated(spine[..build], s, stop);
            && Coherent(spine, s')
            && (s.ledger.None? || build < |s.ran| ==> s' == s)
            && (s.ledger.Some? && build >= |s.ran| ==>
                  s'.ran == if stop < build - |s.ran| then spine[..|s.ran| + stop] else spine[..build])
  {
    if s.ledger.Some? {
      RefusedIffBehind(spine, s, build);
      var k := |s.ran|;
      if build >= k {
        var todo := spine[k..build];
        var done := if stop < |todo| then todo[..stop] else todo;
        assert s.ran == spine[..k];
        assert s.ran + done == if stop < build - k then spine[..k + stop] else spine[..build];
        assert Elems(s.ran + done) == Elems(s.ran) + Elems(done);
      }
    }
  }

  /** The one step that breaks the agreement: the first baseline of a volume, dying half way. */
  ghost predicate HalfBaseline(s: State, step: Step) {
    step.Baseline? && step.cut && s.ledger.None? && step.build > 0
  }

  /** A step keeps the volume coherent if and only if it is not a baseline that dies between creating
      the table and stamping it. */
  lemma StepKeepsCoherentIff(spine: seq<Id>, s: State, step: Step)
    requires NoDup(spine) && Coherent(spine, s) && Legal(spine, s, step)
    ensures Coherent(spine, Apply(spine, s, step))
            <==> !HalfBaseline(s, step)
  {
    match step
    case Migrate(build, stop) => MigrateAdvances(spine, s, build, stop);
    case Baseline(build, cut) =>
      if build > 0 { assert s.ran[0] in Elems(s.ran); }
      assert Elems(s.ran) + Elems(spine[..build]) == Elems(s.ran);
  }

  ghost predicate NoHalfBaseline(spine: seq<Id>, s: State, steps: seq<Step>)
    requires LegalRun(spine, s, steps)
    decreases |steps|
  {
    steps == [] || (!HalfBaseline(s, steps[0]) && NoHalfBaseline(spine, Apply(spine, s, steps[0]), steps[1..]))
  }

  /** Main result: over any sequence of crashed and completed runs, of any mix of builds, the files
      that took effect are a prefix of the spine, each once and in its order, and only ever extended. */
  lemma {:induction false} RunKeepsPrefix(spine: seq<Id>, s: State, steps: seq<Step>)
    requires NoDup(spine) && Coherent(spine, s) && LegalRun(spine, s, steps) && NoHalfBaseline(spine, s, steps)
    ensures Coherent(spine, Run(spine, s, steps)) && s.ran <= Run(spine, s, steps).ran
    decreases |steps|
  {
    if steps == [] {
    } else {
      var s1 := Apply(spine, s, steps[0]);
      StepKeepsCoherentIff(spine, s, steps[0]);
      assert s.ran <= s1.ran;
      RunKeepsPrefix(spine, s1, steps[1..]);
    }
  }

  /** A completed migrate leaves the gate open for its build, and migrating that build again, cut or
      not, changes nothing. */
  lemma CompletedRunIsInSync(spine: seq<Id>, s: State, build: nat, stop: nat, again: nat)
    requires NoDup(spine) && Coherent(spine, s) && build <= |spine|
    requires s.ledger.Some? && |s.ran| <= build <= |s.ran| + stop
    ensures var s' := Migrated(spine[..build], s, stop);
            && s'.ran == spine[..build]
            && s'.ledger == Some(Elems(spine[..build]))
            && Migrated(spine[..build], s', again) == s'
  {
    MigrateAdvances(spine, s, build, stop);
    var s' := Migrated(spine[..build], s, stop);
    assert s'.ran == spine[..build] && s'.ledger.Some?;
    RefusedIffBehind(spine, s', build);
    assert spine[build..build] == [];
    assert Elems([]) == {};
    assert s'.ran + [] == s'.ran && s'.ledger.value + {} == s'.ledger.value;
  }

  /** A volume at its build's head whose first baseline died half way. */
  function HalfBaselined(spine: seq<Id>, build: nat): State
    requires build <= |spine|
  {
    Baselined(spine[..build], State(spine[..build], None), true)
  }

  /** What that leads to: the refusal that guards an un-stamped volume no longer sees it, and the next
      migrate runs files of the spine over again, as many as commit before it stops. */
  lemma HalfBaselineIsNotRefused(spine: seq<Id>, build: nat, stop: nat)
    requires NoDup(spine) && build <= |spine|
    ensures Refused(spine[..build], State(spine[..build], None))
    ensures !Refused(spine[..build], HalfBaselined(spine, build))
    ensures Migrated(spine[..build], HalfBaselined(spine, build), stop).ran
            == spine[..build] + spine[..if stop < build then stop else build]
  {
    var manifest := spine[..build];
    assert AppliedUpTo(manifest, {}, 0);
    CutIsInOrder(manifest, {}, 0);
    assert manifest[0..] == manifest;
    assert stop < build ==> manifest[..stop] == spine[..stop];
  }

  /** The way out: run baseline again, to the end, before any migrate. */
  lemma BaselineRepairs(spine: seq<Id>, build: nat)
    requires build <= |spine|
    ensures build > 0 ==> !Coherent(spine, HalfBaselined(spine, build))
    ensures Coherent(spine, Baselined(spine[..build], HalfBaselined(spine, build), false))
  {
    if build > 0 { assert spine[0] in Elems(spine[..build]); }
    assert {} + Elems(spine[..build]) == Elems(spine[..build]);
  }

  // ----- the operator commands -----

  lemma ElemsAppend(ids: seq<Id>, x: Id)
    ensures Elems(ids + [x]) == Elems(ids) + {x}
  {
  }

  datatype Failure = Uninitialised | Diverged(extra: seq<Id>, outOfOrder: seq<Id>) | Died

  class Volume {
    var ran: seq<Id>
    var ledger: Option<set<Id>>

    function Now(): State
      reads this
    {
      State(ran, ledger)
    }

    constructor ()
      ensures Now() == State([], None)
    {
      ran, ledger := [], None;
    }

    /** The loop of migrate: each entry's SQL and its ledger row commit together. */
    method ApplyPending(pending: seq<Id>, stop: nat) returns (applied: seq<Id>, died: bool)
      requires ledger.Some?
      modifies this
      ensures died <==> stop < |pending|
      ensures applied == if died then pending[..stop] else pending
      ensures ran == old(ran) + applied && ledger == Some(old(ledger).value + Elems(applied))
    {
      applied, died := [], false;
      assert ledger.value + Elems(applied) == ledger.value;
      for n := 0 to |pending|
        invariant n <= stop && applied == pending[..n]
        invariant ran == old(ran) + applied && ledger == Some(old(ledger).value + Elems(applied))
      {
        if n == stop { died := true; return; }
        assert pending[..n + 1] == pending[..n] + [pending[n]];
        ElemsAppend(applied, pending[n]);
        assert old(ledger).value + Elems(applied + [pending[n]]) == ledger.value + {pending[n]};
        ran, ledger := ran + [pending[n]], Some(ledger.value + {pending[n]});
        applied := applied + [pending[n]];
      }
    }

    /** One transaction per pending entry; `rows` is the ledger as the query returned it. An entry whose
        file is missing or whose SQL fails, and a killed process, all stop the run the same way. */
    method Migrate(manifest: seq<Id>, rows: seq<Id>, stop: nat) returns (r: Result<seq<Id>, Failure>)
      requires ledger.Some? ==> Elems(rows) == ledger.value
      modifies this
      ensures Now() == Migrated(manifest, old(Now()), stop)
      ensures r == Err(Uninitialised) <==> old(ledger).None?
      ensures r.Err? && r.error.Diverged? <==> old(ledger).Some? && Refused(manifest, old(Now()))
      ensures r.Err? && r.error.Diverged? ==>
                r.error == Diverged(Without(rows, Elems(manifest)), OutOfOrder(manifest, Elems(rows)))
      ensures r == Err(Died) <==> !Refused(manifest, old(Now())) && stop < |Without(manifest, old(ledger).value)|
      ensures r.Ok? ==> ran == old(ran) + r.value && ledger == Some(Elems(manifest))
    {
      if ledger.None? { return Err(Uninitialised); }
      var known := ledger.value;
      var s := ComputeMigrationStatus(manifest, rows);
      WithoutIsEmptyIff(rows, Elems(manifest));
      if s.extra != [] || s.outOfOrder != [] { return Err(Diverged(s.extra, s.outOfOrder)); }
      assert !Refused(manifest, Now());
      var applied, died := ApplyPending(s.pending, stop);
      if died { return Err(Died); }
      PendingCompletes(manifest, known);
      assert known <= Elems(manifest);
      assert known + Elems(manifest) == Elems(manifest);
      r := Ok(applied);
    }

    method Baseline(manifest: seq<Id>, cut: bool)
      modifies this
      ensures Now() == Baselined(manifest, old(Now()), cut)
    {
      if ledger.None? { ledger := Some({}); }
      if cut { return; }
      ledger := Some(ledger.value + Elems(manifest));
    }
  }

  lemma {:induction false} PendingCompletes(manifest: seq<Id>, known: set<Id>)
    ensures known + Elems(Without(manifest, known)) == known + Elems(manifest)
  {
    if manifest != [] {
      PendingCompletes(manifest[1..], known);
      var head := if manifest[0] in known then [] else [manifest[0]];
      assert Elems(manifest) == {manifest[0]} + Elems(manifest[1..]);
      assert Elems(Without(manifest, known)) == Elems(head) + Elems(Without(manifest[1..], known));
    }
  }
}
