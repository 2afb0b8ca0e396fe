/** The hard reference rewrite behind a split: mentions and claims of some experiences move from one
    entity to another. Nothing is lost, nothing else moves, and moving back restores the tables if and
    only if the target owned nothing in scope before. */
module SplitBindings {
  import opened Basics

  type Id = nat
  type Time = nat

  /** The key of a mentions row. */
  datatype Mention = Mention(exp: Id, entity: Id, surface: string, field: string)

  datatype Claim = Claim(subject: Id, obj: Option<Id>)

  /** A claim_sources row. */
  datatype Source = Source(claim: Id, exp: Id)

  /** Mentions carry their creation time. */
  datatype State = State(mentions: map<Mention, Time>, claims: map<Id, Claim>, sources: set<Source>)

  /** One audit row per rewrite that moved something. */
  datatype LogRow =
    | Moved(source: Id, target: Id, exps: set<Id>, mentions: nat, subjects: nat, objects: nat)
    | MentionMoved(source: Id, target: Id, exp: Id, surface: string, field: string)
    | ClaimsMoved(source: Id, target: Id, exp: Id)

  // ----- mentions -----

  predicate InScope(m: Mention, entity: Id, exps: set<Id>) {
    m.entity == entity && m.exp in exps
  }

  function MentionsOf(s: State, entity: Id, exps: set<Id>): set<Mention> {
    set m | m in s.mentions && InScope(m, entity, exps)
  }

  function Renamed(ms: set<Mention>, target: Id): set<Mention> {
    set m | m in ms :: m.(entity := target)
  }

  /** insert ... on conflict do nothing: an existing target row keeps its own creation time. */
  function InsertFor(mentions: map<Mention, Time>, moving: set<Mention>, source: Id, target: Id): map<Mention, Time>
    requires forall m :: m in moving ==> m in mentions && m.entity == source
  {
    map m | m in mentions.Keys + Renamed(moving, target) ::
        if m in mentions then mentions[m] else mentions[m.(entity := source)]
  }

  /** Insert for the target, then delete the source's rows. */
  function MoveMentions(s: State, source: Id, target: Id, moving: set<Mention>): map<Mention, Time>
    requires forall m :: m in moving ==> m in s.mentions && m.entity == source
  {
    InsertFor(s.mentions, moving, source, target) - moving
  }

  // ----- claims -----

  predicate ClaimInScope(s: State, c: Id, exps: set<Id>) {
    exists r :: r in s.sources && r.claim == c && r.exp in exps
  }

  function SubjectsOf(s: State, entity: Id, exps: set<Id>): set<Id> {
    set c | c in s.claims && s.claims[c].subject == entity && ClaimInScope(s, c, exps)
  }

  function ObjectsOf(s: State, entity: Id, exps: set<Id>): set<Id> {
    set c | c in s.claims && s.claims[c].obj == Some(entity) && ClaimInScope(s, c, exps)
  }

  function MoveClaims(s: State, source: Id, target: Id, exps: set<Id>): map<Id, Claim> {
    map c | c in s.claims ::
      Claim(if c in SubjectsOf(s, source, exps) then target else s.claims[c].subject,
            if c in ObjectsOf(s, source, exps) then Some(target) else s.claims[c].obj)
  }

  /** _repoint_entity_references, the rewrite of split_entity. */
  function Repoint(s: State, source: Id, target: Id, exps: set<Id>): State {
    s.(mentions := MoveMentions(s, source, target, MentionsOf(s, source, exps)),
       claims := MoveClaims(s, source, target, exps))
  }

  /** _repoint_single_mention, the rewrite of split_mention. */
  function RepointOne(s: State, source: Id, target: Id, exp: Id, surface: string, field: string): State {
    var m := Mention(exp, source, surface, field);
    s.(mentions := MoveMentions(s, source, target, if m in s.mentions then {m} else {}))
  }

  /** _repoint_claims_in_experience, the rewrite of split_claims. */
  function RepointClaims(s: State, source: Id, target: Id, exp: Id): State {
    s.(claims := MoveClaims(s, source, target, {exp}))
  }

  // ----- nothing lost, nothing else moved -----

  /** What a mention says, without the entity it is bound to. */
  datatype Binding = Binding(exp: Id, surface: string, field: string)

  predicate Bound(s: State, b: Binding, entity: Id) {
    Mention(b.exp, entity, b.surface, b.field) in s.mentions
  }

  /** An experience-scoped split keeps the bindings of source and target taken together, leaves the
      source none in scope, and touches no mention of anyone else or outside the scope. */
  lemma SplitConservesMentions(s: State, source: Id, target: Id, exps: set<Id>, b: Binding, entity: Id)
    requires source != target
    ensures var s' := Repoint(s, source, target, exps);
            && (Bound(s', b, source) || Bound(s', b, target) <==> Bound(s, b, source) || Bound(s, b, target))
            && (b.exp in exps ==> !Bound(s', b, source))
            && (b.exp !in exps || (entity != source && entity != target) ==>
                  var m := Mention(b.exp, entity, b.surface, b.field);
                  (m in s'.mentions <==> m in s.mentions) && (m in s.mentions ==> s'.mentions[m] == s.mentions[m]))
            && (Bound(s, b, target) ==>
                  var m := Mention(b.exp, target, b.surface, b.field);
                  m in s'.mentions && s'.mentions[m] == s.mentions[m])
  {
  }

  /** The experiences one claim was written from, by its claim_sources rows. */
  ghost predicate WrittenFrom(s: State, c: Id, exps: set<Id>) {
    exists x: Id :: x in exps && Source(c, x) in s.sources
  }

  /** What either claim rewrite does to one claim: if no experience of the scope wrote it, nothing; if one
      did, each side that named the source names the target, and a side that did not is as it was. */
  ghost predicate ClaimMoved(s: State, s': State, source: Id, target: Id, exps: set<Id>, c: Id)
    requires c in s.claims
  {
    && s'.claims.Keys == s.claims.Keys
    && (!WrittenFrom(s, c, exps) ==> s'.claims[c] == s.claims[c])
    && (WrittenFrom(s, c, exps) ==>
          && s'.claims[c].subject == (if s.claims[c].subject == source then target else s.claims[c].subject)
          && s'.claims[c].obj == (if s.claims[c].obj == Some(source) then Some(target) else s.claims[c].obj))
  }

  /** A claim written from an experience of the scope swaps source for target on either side, so the source is
      on neither; every other claim is untouched, and so are the source rows. */
  lemma SplitMovesClaims(s: State, source: Id, target: Id, exps: set<Id>, c: Id)
    requires source != target && c in s.claims
    ensures var s' := Repoint(s, source, target, exps);
            && ClaimMoved(s, s', source, target, exps, c) && s'.sources == s.sources
            && (WrittenFrom(s, c, exps) ==> s'.claims[c].subject != source && s'.claims[c].obj != Some(source))
  {
    ScopeIsWritten(s, c, exps);
  }

  lemma ScopeIsWritten(s: State, c: Id, exps: set<Id>)
    ensures ClaimInScope(s, c, exps) <==> WrittenFrom(s, c, exps)
  {
    if r :| r in s.sources && r.claim == c && r.exp in exps {
      assert r == Source(c, r.exp);
    }
  }

  /** The same for the rewrite of one experience's claims, which leaves every mention alone. */
  lemma SplitMovesClaimsOfOne(s: State, source: Id, target: Id, exp: Id, c: Id)
    requires source != target && c in s.claims
    ensures var s' := RepointClaims(s, source, target, exp);
            && s'.mentions == s.mentions && s'.sources == s.sources && s'.claims.Keys == s.claims.Keys
            && (Source(c, exp) !in s.sources ==> s'.claims[c] == s.claims[c])
            && (Source(c, exp) in s.sources ==>
                  && s'.claims[c].subject == (if s.claims[c].subject == source then target else s.claims[c].subject)
                  && s'.claims[c].obj == (if s.claims[c].obj == Some(source) then Some(target) else s.claims[c].obj))
  {
    ScopeIsWritten(s, c, {exp});
  }

  /** A binding that moves takes its creation time along, unless the target had one of its own. */
  lemma SplitKeepsTimes(s: State, source: Id, target: Id, exps: set<Id>, b: Binding)
    requires source != target && b.exp in exps && Bound(s, b, source)
    ensures var s' := Repoint(s, source, target, exps);
            var here, there := Mention(b.exp, source, b.surface, b.field), Mention(b.exp, target, b.surface, b.field);
            there in s'.mentions && s'.mentions[there] == s.mentions[if there in s.mentions then there else here]
  {
    var here, there := Mention(b.exp, source, b.surface, b.field), Mention(b.exp, target, b.surface, b.field);
    assert here in MentionsOf(s, source, exps) && here.(entity := target) == there && there.(entity := source) == here;
    assert there in Renamed(MentionsOf(s, source, exps), target);
  }

  /** What the counts of a rewrite count: the source's mentions of the scope, and the claims written there
      that name it on either side. */
  lemma ScopesCount(s: State, entity: Id, exps: set<Id>, m: Mention, c: Id)
    ensures m in MentionsOf(s, entity, exps) <==> m in s.mentions && m.entity == entity && m.exp in exps
    ensures c in SubjectsOf(s, entity, exps) <==>
            c in s.claims && s.claims[c].subject == entity && WrittenFrom(s, c, exps)
    ensures c in ObjectsOf(s, entity, exps) <==>
            c in s.claims && s.claims[c].obj == Some(entity) && WrittenFrom(s, c, exps)
  {
    ScopeIsWritten(s, c, exps);
  }

  /** A mention-scoped split moves that one binding and nothing else: a co-mention of the source in
      the same experience stays. */
  lemma SplitOneMention(s: State, source: Id, target: Id, exp: Id, surface: string, field: string, m: Mention)
    requires source != target && Mention(exp, source, surface, field) in s.mentions
    requires m != Mention(exp, source, surface, field) && m != Mention(exp, target, surface, field)
    ensures var s' := RepointOne(s, source, target, exp, surface, field);
            && Mention(exp, source, surface, field) !in s'.mentions
            && Mention(exp, target, surface, field) in s'.mentions
            && (m in s'.mentions <==> m in s.mentions) && (m in s.mentions ==> s'.mentions[m] == s.mentions[m])
            && s'.claims == s.claims
            && (Mention(exp, target, surface, field) !in s.mentions ==>
                  s'.mentions[Mention(exp, target, surface, field)] == s.mentions[Mention(exp, source, surface, field)])
  {
    var here, there := Mention(exp, source, surface, field), Mention(exp, target, surface, field);
    assert here.(entity := target) == there && there.(entity := source) == here && there in Renamed({here}, target);
  }

  // ----- moving back -----

  /** The target owns nothing the split could confuse with what it receives. */
  predicate OwnsNothing(s: State, entity: Id, exps: set<Id>) {
    MentionsOf(s, entity, exps) == {} && SubjectsOf(s, entity, exps) == {} && ObjectsOf(s, entity, exps) == {}
  }

  lemma MentionsComeBack(s: State, source: Id, target: Id, exps: set<Id>)
    requires source != target && MentionsOf(s, target, exps) == {}
    ensures Repoint(Repoint(s, source, target, exps), target, source, exps).mentions == s.mentions
  {
    var s1 := Repoint(s, source, target, exps);
    var s2 := Repoint(s1, target, source, exps);
    forall m: Mention
      ensures (m in s2.mentions <==> m in s.mentions) && (m in s.mentions ==> s2.mentions[m] == s.mentions[m])
    {
      var b := Binding(m.exp, m.surface, m.field);
      SplitConservesMentions(s, source, target, exps, b, m.entity);
      SplitConservesMentions(s1, target, source, exps, b, m.entity);
      if InScope(m, source, exps) {
        SameTimeThere(s, source, target, exps, m);
        SameTimeBack(s, source, target, exps, m);
      } else if InScope(m, target, exps) {
        assert m !in MentionsOf(s, target, exps);
      }
    }
  }

  /** A moved mention takes its creation time along when the target has no such row. */
  lemma SameTimeThere(s: State, source: Id, target: Id, exps: set<Id>, m: Mention)
    requires source != target && MentionsOf(s, target, exps) == {} && InScope(m, source, exps)
    ensures var s1 := Repoint(s, source, target, exps);
            var there := m.(entity := target);
            (there in s1.mentions <==> m in s.mentions) && (m in s.mentions ==> s1.mentions[there] == s.mentions[m])
  {
    var moving := MentionsOf(s, source, exps);
    var there := m.(entity := target);
    assert there !in MentionsOf(s, target, exps);
    assert there.(entity := source) == m;
    if m in s.mentions {
      assert m in moving && there in Renamed(moving, target);
    }
    if there in Renamed(moving, target) {
      var k :| k in moving && k.(entity := target) == there;
      assert k == m;
    }
  }

  lemma SameTimeBack(s: State, source: Id, target: Id, exps: set<Id>, m: Mention)
    requires source != target && MentionsOf(s, target, exps) == {} && InScope(m, source, exps)
    ensures var s2 := Repoint(Repoint(s, source, target, exps), target, source, exps);
            (m in s2.mentions <==> m in s.mentions) && (m in s.mentions ==> s2.mentions[m] == s.mentions[m])
  {
    var s1 := Repoint(s, source, target, exps);
    var there := m.(entity := target);
    SameTimeThere(s, source, target, exps, m);
    assert MentionsOf(s1, source, exps) == {} by {
      forall k | k in MentionsOf(s1, source, exps)
        ensures false
      {
        SplitConservesMentions(s, source, target, exps, Binding(k.exp, k.surface, k.field), source);
      }
    }
    assert there.(entity := source) == m;
    SameTimeThere(s1, target, source, exps, there);
  }

  lemma ClaimsComeBack(s: State, source: Id, target: Id, exps: set<Id>)
    requires source != target && SubjectsOf(s, target, exps) == {} && ObjectsOf(s, target, exps) == {}
    ensures Repoint(Repoint(s, source, target, exps), target, source, exps).claims == s.claims
  {
    var s1 := Repoint(s, source, target, exps);
    var s2 := Repoint(s1, target, source, exps);
    forall c | c in s.claims
      ensures s2.claims[c] == s.claims[c]
    {
      ScopeIsWritten(s, c, exps);
      ScopeIsWritten(s1, c, exps);
      assert c !in SubjectsOf(s, target, exps) && c !in ObjectsOf(s, target, exps);
    }
  }

  lemma OwnedIsInScope(s: State, s1: State, entity: Id, exps: set<Id>, c: Id)
    requires c in SubjectsOf(s, entity, exps) || c in ObjectsOf(s, entity, exps)
    requires s1.sources == s.sources
    ensures c in s.claims && (s.claims[c].subject == entity || s.claims[c].obj == Some(entity))
    ensures WrittenFrom(s1, c, exps)
  {
    ScopeIsWritten(s, c, exps);
  }

  /** Main result: splitting back over the same experiences restores mentions and claims exactly if
      and only if the target owned nothing in scope to begin with. */
  lemma SplitBackRestoresIff(s: State, source: Id, target: Id, exps: set<Id>)
    requires source != target
    ensures Repoint(Repoint(s, source, target, exps), target, source, exps) == s <==> OwnsNothing(s, target, exps)
  {
    var s1 := Repoint(s, source, target, exps);
    var s2 := Repoint(s1, target, source, exps);
    if OwnsNothing(s, target, exps) {
      MentionsComeBack(s, source, target, exps);
      ClaimsComeBack(s, source, target, exps);
    } else if MentionsOf(s, target, exps) != {} {
      var m :| m in MentionsOf(s, target, exps);
      SplitConservesMentions(s1, target, source, exps, Binding(m.exp, m.surface, m.field), target);
      assert m !in s2.mentions && m in s.mentions;
    } else {
      var owned := SubjectsOf(s, target, exps) + ObjectsOf(s, target, exps);
      assert owned != {};
      var c :| c in owned;
      OwnedIsInScope(s, s1, target, exps, c);
      SplitMovesClaims(s1, target, source, exps, c);
    }
  }

  /** The run that fails: the target already had a mention in the experience, and the way back takes it
      along. */
  lemma SplitBackFails(exp: Id, surface: string, field: string, at: Time)
    ensures var s := State(map[Mention(exp, 1, surface, field) := at], map[], {});
            Repoint(Repoint(s, 0, 1, {exp}), 1, 0, {exp}) != s
  {
    var s := State(map[Mention(exp, 1, surface, field) := at], map[], {});
    assert Mention(exp, 1, surface, field) in MentionsOf(s, 1, {exp});
    SplitBackRestoresIff(s, 0, 1, {exp});
  }

  // ----- the services -----

  /** The first claims update does not change which rows the second one finds. */
  lemma SubjectsKeepObjects(s: State, s1: State, source: Id, exps: set<Id>)
    requires s1.sources == s.sources && s1.claims.Keys == s.claims.Keys
    requires forall c :: c in s.claims ==> s1.claims[c].obj == s.claims[c].obj
    ensures ObjectsOf(s1, source, exps) == ObjectsOf(s, source, exps)
  {
  }

  class Tables {
    var mentions: map<Mention, Time>
    var claims: map<Id, Claim>
    var sources: set<Source>
    var log: seq<LogRow>

    function Now(): State
      reads this
    {
      State(mentions, claims, sources)
    }

    constructor ()
      ensures Now() == State(map[], map[], {}) && log == []
    {
      mentions, claims, sources, log := map[], map[], {}, [];
    }

    /** The two claims updates shared by both claim rewrites; the second sees the first's result. */
    method UpdateClaims(source: Id, target: Id, exps: set<Id>) returns (subjects: nat, objects: nat)
      modifies `claims
      ensures claims == MoveClaims(old(Now()), source, target, exps)
      ensures subjects == |SubjectsOf(old(Now()), source, exps)| && objects == |ObjectsOf(old(Now()), source, exps)|
    {
      var s := Now();
      var asSubject := SubjectsOf(s, source, exps);
      claims := map c | c in claims :: if c in asSubject then claims[c].(subject := target) else claims[c];
      SubjectsKeepObjects(s, Now(), source, exps);
      var asObject := ObjectsOf(Now(), source, exps);
      claims := map c | c in claims :: if c in asObject then claims[c].(obj := Some(target)) else claims[c];
      subjects, objects := |asSubject|, |asObject|;
    }

    /** _repoint_entity_references: insert, delete, two updates, and an audit row when anything moved. */
    method RepointEntityReferences(source: Id, target: Id, exps: set<Id>) returns (moved: LogRow)
      requires source != target
      modifies this
      ensures Now() == Repoint(old(Now()), source, target, exps)
      ensures moved == Moved(source, target, exps, |MentionsOf(old(Now()), source, exps)|,
                             |SubjectsOf(old(Now()), source, exps)|, |ObjectsOf(old(Now()), source, exps)|)
      ensures log == if moved.mentions + moved.subjects + moved.objects > 0 then old(log) + [moved] else old(log)
    {
      ghost var s := Now();
      var moving := MentionsOf(Now(), source, exps);
      mentions := InsertFor(mentions, moving, source, target);
      mentions := mentions - moving;
      MentionsDoNotMatter(s, Now(), source, target, exps);
      var subjects, objects := UpdateClaims(source, target, exps);
      moved := Moved(source, target, exps, |moving|, subjects, objects);
      if |moving| + subjects + objects > 0 { log := log + [moved]; }
    }

    /** _repoint_single_mention: claims are left alone. */
    method RepointSingleMention(source: Id, target: Id, exp: Id, surface: string, field: string) returns (moved: nat)
      requires source != target
      modifies this
      ensures Now() == RepointOne(old(Now()), source, target, exp, surface, field)
      ensures moved == if Mention(exp, source, surface, field) in old(mentions) then 1 else 0
      ensures log == if moved > 0 then old(log) + [MentionMoved(source, target, exp, surface, field)] else old(log)
    {
      var m := Mention(exp, source, surface, field);
      var moving := if m in mentions then {m} else {};
      mentions := InsertFor(mentions, moving, source, target);
      mentions := mentions - moving;
      moved := |moving|;
      if moved > 0 { log := log + [MentionMoved(source, target, exp, surface, field)]; }
    }

    /** _repoint_claims_in_experience: mentions are left alone. */
    method RepointClaimsInExperience(source: Id, target: Id, exp: Id) returns (moved: nat)
      requires source != target
      modifies this
      ensures Now() == RepointClaims(old(Now()), source, target, exp)
      ensures moved == |SubjectsOf(old(Now()), source, {exp})| + |ObjectsOf(old(Now()), source, {exp})|
      ensures log == if moved > 0 then old(log) + [ClaimsMoved(source, target, exp)] else old(log)
    {
      var subjects, objects := UpdateClaims(source, target, {exp});
      moved := subjects + objects;
      if moved > 0 { log := log + [ClaimsMoved(source, target, exp)]; }
    }
  }

  /** The claim side of a rewrite reads claims and sources only. */
  lemma MentionsDoNotMatter(s: State, s1: State, source: Id, target: Id, exps: set<Id>)
    requires s1.claims == s.claims && s1.sources == s.sources
    ensures SubjectsOf(s1, source, exps) == SubjectsOf(s, source, exps)
    ensures ObjectsOf(s1, source, exps) == ObjectsOf(s, source, exps)
    ensures MoveClaims(s1, source, target, exps) == MoveClaims(s, source, target, exps)
  {
  }
}
