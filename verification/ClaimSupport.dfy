/** Claims and the experiences that support them: soft deletion retracts exactly the claims that lose
    their last live source, superseding an experience retracts what was taken from it word for word
    or inferred, and over every run an asserted claim keeps a source that still speaks for it. */
module ClaimSupport {
  import opened Basics

  type Id = nat

  datatype Support = Verbatim | Paraphrased | Inferred | Imported

  datatype Polarity = Asserted | Suspected | Denied | Retracted

  datatype Experience = Experience(deleted: bool, supersededBy: Option<Id>)

  /** The key of a claim_sources row. */
  datatype Source = Source(claim: Id, exp: Id)

  datatype LogRow = ClaimRetracted(claim: Id) | ExperienceDeleted(exp: Id) | ExperienceSuperseded(exp: Id, newExp: Id)

  datatype State = State(exps: map<Id, Experience>, claims: map<Id, Polarity>, sources: map<Source, Support>,
                         log: seq<LogRow>)

  predicate Live(s: State, x: Id) {
    x in s.exps && !s.exps[x].deleted && s.exps[x].supersededBy.None?
  }

  predicate IsAsserted(s: State, c: Id) {
    c in s.claims && s.claims[c] == Asserted
  }

  /** update ... set polarity = 'retracted' for a set of claims. */
  function RetractAll(claims: map<Id, Polarity>, cs: set<Id>): map<Id, Polarity> {
    map c | c in claims :: if c in cs then Retracted else claims[c]
  }

  function RetractionRows(order: seq<Id>): seq<LogRow> {
    seq(|order|, i requires 0 <= i < |order| => ClaimRetracted(order[i]))
  }

  /** The asserted claims sourced by `x` whose only live source is `x`. */
  function Orphaned(s: State, x: Id): set<Id> {
    set c | c in s.claims && s.claims[c] == Asserted && Source(c, x) in s.sources
            && !exists r :: r in s.sources && r.claim == c && r.exp != x && Live(s, r.exp)
  }

  /** soft_delete_experience; deleting twice changes nothing. */
  function SoftDelete(s: State, x: Id, order: seq<Id>): State
    requires x in s.exps
  {
    if s.exps[x].deleted then s
    else s.(exps := s.exps[x := s.exps[x].(deleted := true)],
            claims := RetractAll(s.claims, Orphaned(s, x)),
            log := s.log + RetractionRows(order) + [ExperienceDeleted(x)])
  }

  /** The asserted claims with a source row of the given kinds on `x`. */
  function SourcedAs(s: State, x: Id, kinds: set<Support>): set<Id> {
    set c | c in s.claims && s.claims[c] == Asserted && Source(c, x) in s.sources && s.sources[Source(c, x)] in kinds
  }

  /** _supersede: a new live experience, the back link, and the automatic retractions. */
  function Supersede(s: State, x: Id, newId: Id, order: seq<Id>): State
    requires x in s.exps && newId !in s.exps
  {
    State(s.exps[newId := Experience(false, None)][x := s.exps[x].(supersededBy := Some(newId))],
          RetractAll(s.claims, SourcedAs(s, x, {Verbatim, Inferred})),
          s.sources,
          s.log + RetractionRows(order) + [ExperienceSuperseded(x, newId)])
  }

  /** _retract_paraphrased: only claims this experience paraphrases are eligible. */
  function RetractParaphrased(s: State, x: Id, requested: set<Id>, order: seq<Id>): State {
    s.(claims := RetractAll(s.claims, SourcedAs(s, x, {Paraphrased}) * requested), log := s.log + RetractionRows(order))
  }

  /** retract_claim on its own, whatever the polarity was. */
  function RetractOne(s: State, c: Id): State {
    if c in s.claims && s.claims[c] != Retracted
    then s.(claims := RetractAll(s.claims, {c}), log := s.log + [ClaimRetracted(c)])
    else s
  }

  datatype Op =
    | DoDelete(x: Id, order: seq<Id>)
    | DoSupersede(x: Id, newId: Id, order: seq<Id>)
    | DoParaphrased(x: Id, requested: set<Id>, order: seq<Id>)
    | DoRetract(c: Id)

  ghost predicate Legal(s: State, op: Op) {
    match op
    case DoDelete(x, order) => x in s.exps && Enumerates(order, Orphaned(s, x))
    case DoSupersede(x, newId, order) =>
      x in s.exps && newId !in s.exps && Enumerates(order, SourcedAs(s, x, {Verbatim, Inferred}))
    case DoParaphrased(x, requested, order) => Enumerates(order, SourcedAs(s, x, {Paraphrased}) * requested)
    case DoRetract(_) => true
  }

  ghost function Apply(s: State, op: Op): State
    requires Legal(s, op)
  {
    match op
    case DoDelete(x, order) => SoftDelete(s, x, order)
    case DoSupersede(x, newId, order) => Supersede(s, x, newId, order)
    case DoParaphrased(x, requested, order) => RetractParaphrased(s, x, requested, order)
    case DoRetract(c) => RetractOne(s, c)
  }

  ghost predicate LegalRun(s: State, ops: seq<Op>)
    decreases |ops|
  {
    ops == [] || (Legal(s, ops[0]) && LegalRun(Apply(s, ops[0]), ops[1..]))
  }

  ghost function Run(s: State, ops: seq<Op>): State
    requires LegalRun(s, ops)
    decreases |ops|
  {
    if ops == [] then s else Run(Apply(s, ops[0]), ops[1..])
  }

  // ----- what speaks for a claim -----

  /** A live source does; so does a superseded one whose support is neither verbatim nor inferred. */
  predicate Speaks(s: State, c: Id, x: Id) {
    && Source(c, x) in s.sources && x in s.exps
    && !s.exps[x].deleted
    && (s.exps[x].supersededBy.None? || (s.sources[Source(c, x)] != Verbatim && s.sources[Source(c, x)] != Inferred))
  }

  /** Source rows point at known experiences, and every asserted claim with sources has one that
      speaks for it. */
  ghost predicate Supported(s: State) {
    && (forall r :: r in s.sources ==> r.exp in s.exps)
    && (forall c, y :: IsAsserted(s, c) && Source(c, y) in s.sources ==> exists x :: Speaks(s, c, x))
  }

  lemma DeleteKeepsSupported(s: State, x: Id, order: seq<Id>)
    requires Supported(s) && x in s.exps
    ensures Supported(SoftDelete(s, x, order))
  {
    var s' := SoftDelete(s, x, order);
    forall c, y | IsAsserted(s', c) && Source(c, y) in s'.sources
      ensures exists z :: Speaks(s', c, z)
    {
      assert IsAsserted(s, c);
      var z :| Speaks(s, c, z);
      if z != x {
        assert Speaks(s', c, z);
      } else if !s.exps[x].deleted {
        assert c !in Orphaned(s, x);
        var r :| r in s.sources && r.claim == c && r.exp != x && Live(s, r.exp);
        assert Source(c, r.exp) == r;
        assert Speaks(s', c, r.exp);
      }
    }
  }

  lemma SupersedeKeepsSupported(s: State, x: Id, newId: Id, order: seq<Id>)
    requires Supported(s) && x in s.exps && newId !in s.exps
    ensures Supported(Supersede(s, x, newId, order))
  {
    var s' := Supersede(s, x, newId, order);
    forall c, y | IsAsserted(s', c) && Source(c, y) in s'.sources
      ensures exists z :: Speaks(s', c, z)
    {
      assert IsAsserted(s, c);
      var z :| Speaks(s, c, z);
      assert c !in SourcedAs(s, x, {Verbatim, Inferred});
      assert z == x ==> s.sources[Source(c, x)] != Verbatim && s.sources[Source(c, x)] != Inferred;
      assert Speaks(s', c, z);
    }
  }

  lemma RetractKeepsSupported(s: State, cs: set<Id>, log: seq<LogRow>)
    requires Supported(s)
    ensures Supported(s.(claims := RetractAll(s.claims, cs), log := log))
  {
    var s' := s.(claims := RetractAll(s.claims, cs), log := log);
    forall c, y | IsAsserted(s', c) && Source(c, y) in s'.sources
      ensures exists z :: Speaks(s', c, z)
    {
      assert IsAsserted(s, c);
      var z :| Speaks(s, c, z);
      assert Speaks(s', c, z);
    }
  }

  lemma StepKeepsSupported(s: State, op: Op)
    requires Supported(s) && Legal(s, op)
    ensures Supported(Apply(s, op))
  {
    match op
    case DoDelete(x, order) => DeleteKeepsSupported(s, x, order);
    case DoSupersede(x, newId, order) => SupersedeKeepsSupported(s, x, newId, order);
    case DoParaphrased(x, requested, order) =>
      RetractKeepsSupported(s, SourcedAs(s, x, {Paraphrased}) * requested, s.log + RetractionRows(order));
    case DoRetract(c) => RetractKeepsSupported(s, {c}, s.log + [ClaimRetracted(c)]);
  }

  /** Between two states of a run claims neither appear nor vanish, and polarity only moves to
      retracted; without an explicit retract_claim only from asserted. */
  ghost predicate OnlyRetracts(s: State, s': State, fromAny: bool) {
    && s'.claims.Keys == s.claims.Keys
    && forall c :: c in s.claims ==>
         s'.claims[c] == s.claims[c] || (s'.claims[c] == Retracted && (fromAny || s.claims[c] == Asserted))
  }

  /** Main result: over every run of soft deletes, superseding edits and retractions, each asserted
      claim with sources keeps one that speaks for it, and claims are only ever retracted. */
  lemma {:induction false} RunKeepsSupported(s: State, ops: seq<Op>)
    requires Supported(s) && LegalRun(s, ops)
    ensures Supported(Run(s, ops)) && Run(s, ops).sources == s.sources
    ensures OnlyRetracts(s, Run(s, ops), exists i :: 0 <= i < |ops| && ops[i].DoRetract?)
    decreases |ops|
  {
    if ops == [] {
    } else {
      StepKeepsSupported(s, ops[0]);
      RunKeepsSupported(Apply(s, ops[0]), ops[1..]);
      assert forall i :: 0 <= i < |ops[1..]| ==> ops[1..][i] == ops[i + 1];
    }
  }

  /** Some experience that is neither deleted nor superseded is a source of the claim. */
  ghost predicate HasLiveSource(s: State, c: Id) {
    exists y: Id :: Source(c, y) in s.sources && y in s.exps && !s.exps[y].deleted && s.exps[y].supersededBy.None?
  }

  /** The claim alone, of those known, changed: it was retracted. */
  ghost predicate RetractedIff(s: State, s': State, c: Id, why: bool)
    requires c in s.claims
  {
    s'.claims.Keys == s.claims.Keys && s'.claims[c] == if why then Retracted else s.claims[c]
  }

  /** The audit rows a call appended, but for its last, are one for each claim it retracted. */
  ghost predicate AuditedIff(s: State, s': State, c: Id, why: bool) {
    s.log <= s'.log && (ClaimRetracted(c) in s'.log[|s.log|..] <==> why)
  }

  /** Deleting retracts a claim if and only if it was asserted, this experience sourced it, and it has
      no live source left; it audits just those claims, deletes just that experience, and deleting again
      changes nothing. */
  lemma DeleteRetractsExactly(s: State, x: Id, order: seq<Id>, c: Id)
    requires Supported(s) && x in s.exps && !s.exps[x].deleted && c in s.claims
    requires Enumerates(order, Orphaned(s, x))
    ensures var s' := SoftDelete(s, x, order);
            var why := s.claims[c] == Asserted && Source(c, x) in s.sources && !HasLiveSource(s', c);
            && RetractedIff(s, s', c, why) && AuditedIff(s, s', c, why)
            && s'.exps == s.exps[x := Experience(true, s.exps[x].supersededBy)] && s'.sources == s.sources
            && s'.log != [] && s'.log[|s'.log| - 1] == ExperienceDeleted(x)
            && SoftDelete(s', x, order) == s'
  {
    var s' := SoftDelete(s, x, order);
    assert c in Orphaned(s, x) <==> s.claims[c] == Asserted && Source(c, x) in s.sources && !HasLiveSource(s', c) by {
      if c !in Orphaned(s, x) && s.claims[c] == Asserted && Source(c, x) in s.sources {
        var r :| r in s.sources && r.claim == c && r.exp != x && Live(s, r.exp);
        assert Source(c, r.exp) == r;
      }
    }
    RowsAre(order, c);
    assert s'.log[|s.log|..] == RetractionRows(order) + [ExperienceDeleted(x)];
  }

  lemma RowsAre(order: seq<Id>, c: Id)
    ensures ClaimRetracted(c) in RetractionRows(order) <==> c in order
  {
    if c in order {
      var i :| 0 <= i < |order| && order[i] == c;
      assert RetractionRows(order)[i] == ClaimRetracted(c);
    }
  }

  /** Superseding retracts just the asserted claims this experience quotes or infers, puts a live experience
      in its place, and audits both. */
  lemma SupersedeRetractsExactly(s: State, x: Id, newId: Id, order: seq<Id>, c: Id)
    requires x in s.exps && newId !in s.exps && c in s.claims
    requires Enumerates(order, SourcedAs(s, x, {Verbatim, Inferred}))
    ensures var s' := Supersede(s, x, newId, order);
            var why := s.claims[c] == Asserted && Source(c, x) in s.sources
                       && (s.sources[Source(c, x)] == Verbatim || s.sources[Source(c, x)] == Inferred);
            && RetractedIff(s, s', c, why) && AuditedIff(s, s', c, why)
            && s'.exps == s.exps[newId := Experience(false, None)][x := Experience(s.exps[x].deleted, Some(newId))]
            && s'.sources == s.sources && s'.log != [] && s'.log[|s'.log| - 1] == ExperienceSuperseded(x, newId)
  {
    var s' := Supersede(s, x, newId, order);
    RowsAre(order, c);
    assert s'.log[|s.log|..] == RetractionRows(order) + [ExperienceSuperseded(x, newId)];
  }

  /** A confirmed retraction reaches just the asserted claims asked for that this experience paraphrases. */
  lemma ParaphrasedRetractsExactly(s: State, x: Id, requested: set<Id>, order: seq<Id>, c: Id)
    requires c in s.claims && Enumerates(order, SourcedAs(s, x, {Paraphrased}) * requested)
    ensures var s' := RetractParaphrased(s, x, requested, order);
            var why := c in requested && s.claims[c] == Asserted
                       && Source(c, x) in s.sources && s.sources[Source(c, x)] == Paraphrased;
            && RetractedIff(s, s', c, why) && AuditedIff(s, s', c, why)
            && s'.exps == s.exps && s'.sources == s.sources
  {
    var s' := RetractParaphrased(s, x, requested, order);
    RowsAre(order, c);
    assert s'.log[|s.log|..] == RetractionRows(order);
  }

  /** A retraction by hand reaches just that claim, whatever its polarity, and audits it unless it was
      retracted before. */
  lemma RetractOneExactly(s: State, d: Id, c: Id)
    requires c in s.claims
    ensures var s' := RetractOne(s, d);
            && RetractedIff(s, s', c, c == d)
            && AuditedIff(s, s', c, c == d && s.claims[c] != Retracted)
            && s'.exps == s.exps && s'.sources == s.sources
  {
  }

  // ----- the services -----

  datatype EditResult = EditResult(autoRetracted: seq<Id>, pending: set<Id>, paraphrasedRetracted: seq<Id>)

  class Tables {
    var exps: map<Id, Experience>
    var claims: map<Id, Polarity>
    var sources: map<Source, Support>
    var log: seq<LogRow>

    ghost function Now(): State
      reads this
    {
      State(exps, claims, sources, log)
    }

    constructor ()
      ensures Now() == State(map[], map[], map[], [])
    {
      exps, claims, sources, log := map[], map[], map[], [];
    }

    /** Retract asserted claims one by one, each with its audit row. */
    method RetractEach(cs: set<Id>) returns (order: seq<Id>)
      requires forall c :: c in cs ==> c in claims && claims[c] == Asserted
      modifies `claims, `log
      ensures Enumerates(order, cs)
      ensures claims == RetractAll(old(claims), cs) && log == old(log) + RetractionRows(order)
    {
      var rest := cs;
      order := [];
      while rest != {}
        invariant rest <= cs && Enumerates(order, cs - rest)
        invariant claims.Keys == old(claims).Keys
        invariant forall c :: c in claims ==> claims[c] == if c in cs - rest then Retracted else old(claims)[c]
        invariant log == old(log) + RetractionRows(order)
        decreases rest
      {
        var c :| c in rest;
        rest := rest - {c};
        claims := claims[c := Retracted];
        log := log + [ClaimRetracted(c)];
        order := order + [c];
      }
      assert claims == RetractAll(old(claims), cs);
    }

    /** soft_delete_experience, for a viewer who may. */
    method SoftDeleteExperience(x: Id) returns (alreadyDeleted: bool, retracted: seq<Id>)
      requires x in exps
      modifies this
      ensures alreadyDeleted == old(exps)[x].deleted
      ensures Now() == SoftDelete(old(Now()), x, retracted)
      ensures Enumerates(retracted, if alreadyDeleted then {} else Orphaned(old(Now()), x))
    {
      ghost var s := Now();
      if exps[x].deleted { return true, []; }
      var orphaned := set c | c in claims && claims[c] == Asserted && Source(c, x) in sources
                              && !exists r :: r in sources && r.claim == c && r.exp != x
                                              && r.exp in exps && !exps[r.exp].deleted
                                              && exps[r.exp].supersededBy.None?;
      assert orphaned == Orphaned(s, x);
      exps := exps[x := exps[x].(deleted := true)];
      retracted := RetractEach(orphaned);
      log := log + [ExperienceDeleted(x)];
      return false, retracted;
    }

    /** edit_experience past the embedding: `superseding` is the new row's id when the similarity is at
        or below the in-place threshold. */
    method EditExperience(x: Id, superseding: Option<Id>, requested: set<Id>) returns (r: EditResult)
      requires x in exps && (superseding.Some? ==> superseding.value !in exps)
      modifies this
      ensures var mid := if superseding.Some? then Supersede(old(Now()), x, superseding.value, r.autoRetracted)
                         else old(Now());
              Now() == RetractParaphrased(mid, x, requested, r.paraphrasedRetracted)
              && Enumerates(r.paraphrasedRetracted, SourcedAs(mid, x, {Paraphrased}) * requested)
      ensures superseding.Some? ==>
                && Enumerates(r.autoRetracted, SourcedAs(old(Now()), x, {Verbatim, Inferred}))
                && r.pending == SourcedAs(old(Now()), x, {Paraphrased})
    {
      ghost var s := Now();
      var auto, pending: set<Id> := [], {};
      if superseding.Some? {
        exps := exps[superseding.value := Experience(false, None)][x := exps[x].(supersededBy := superseding)];
        var retract := set c | c in claims && claims[c] == Asserted && Source(c, x) in sources
                               && sources[Source(c, x)] in {Verbatim, Inferred};
        pending := set c | c in claims && claims[c] == Asserted && Source(c, x) in sources
                           && sources[Source(c, x)] in {Paraphrased};
        assert retract == SourcedAs(s, x, {Verbatim, Inferred}) && pending == SourcedAs(s, x, {Paraphrased});
        auto := RetractEach(retract);
        log := log + [ExperienceSuperseded(x, superseding.value)];
        assert Now() == Supersede(s, x, superseding.value, auto);
      }
      ghost var mid := Now();
      var eligible := set c | c in claims && claims[c] == Asserted && Source(c, x) in sources
                              && sources[Source(c, x)] in {Paraphrased};
      assert eligible == SourcedAs(mid, x, {Paraphrased});
      var done := RetractEach(eligible * requested);
      return EditResult(auto, pending, done);
    }
  }
}
