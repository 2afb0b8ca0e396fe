/** Refresh requests that overlap. A request reads its token's row, saves the new token and revokes the old
    one in three separate statements; any number of other requests, replays and disconnections may come in
    between. */
module RefreshRace {
  import opened Basics
  import opened OAuthTokens

  /** Where a request stands. `row` is the token it presented, `given` the one it got. */
  datatype Phase =
    | Authenticated(row: nat)
    | Replaying(family: Family)
    | Issued(row: nat, given: nat)
    | Redeemed(row: nat, given: nat)
    | Over

  datatype World = World(tokens: seq<Token>, calls: map<nat, Phase>)

  datatype Event =
    | Read(call: nat, refresh: string, client: Client)     // authenticate_refresh_token, check_client
    | Kill(call: nat, now: Time)                           // the update of a replayed token's family
    | Issue(call: nat, newRefresh: string)                 // save_token
    | Retire(call: nat, now: Time)                         // revoke_old_credential
    | Begin(user: User, client: Client, family: Family, refresh: string)   // a code is exchanged
    | Disconnect(user: User, client: Client, now: Time)    // revoke_client

  predicate FreshString(w: World, refresh: string) {
    forall i :: 0 <= i < |w.tokens| ==> w.tokens[i].refresh != refresh
  }

  predicate Enabled(w: World, e: Event) {
    match e
    case Read(call, _, _) => call !in w.calls
    case Kill(call, now) => call in w.calls && w.calls[call].Replaying? && now > 0
    case Issue(call, newRefresh) =>
      call in w.calls && w.calls[call].Authenticated? && w.calls[call].row < |w.tokens| && FreshString(w, newRefresh)
    case Retire(call, now) =>
      call in w.calls && w.calls[call].Issued? && w.calls[call].row < |w.tokens| && now > 0
    case Begin(_, _, family, refresh) =>
      FreshString(w, refresh) && forall i :: 0 <= i < |w.tokens| ==> w.tokens[i].family != family
    case Disconnect(_, _, now) => now > 0
  }

  function Decide(w: World, refresh: string, client: Client): Phase {
    var i := Find(w.tokens, refresh);
    if i.None? then Over
    else if !LiveRow(w.tokens[i.value]) then Replaying(w.tokens[i.value].family)
    else if w.tokens[i.value].client != client then Over
    else Authenticated(i.value)
  }

  function Next(w: World, e: Event): World
    requires Enabled(w, e)
  {
    match e
    case Read(call, refresh, client) => w.(calls := w.calls[call := Decide(w, refresh, client)])
    case Kill(call, now) =>
      World(RevokeFamilies(w.tokens, {w.calls[call].family}, now), w.calls[call := Over])
    case Issue(call, newRefresh) =>
      var row := w.calls[call].row;
      var t := w.tokens[row];
      World(w.tokens + [Token(t.client, t.user, t.family, newRefresh, 0, 0)], w.calls[call := Issued(row, |w.tokens|)])
    case Retire(call, now) =>
      var c := w.calls[call];
      World(w.tokens[c.row := Stamp(w.tokens[c.row], now)], w.calls[call := Redeemed(c.row, c.given)])
    case Begin(user, client, family, refresh) => w.(tokens := w.tokens + [Token(client, user, family, refresh, 0, 0)])
    case Disconnect(user, client, now) =>
      w.(tokens := RevokeFamilies(w.tokens, FamiliesOf(w.tokens, user, {client}), now))
  }

  ghost predicate LegalRun(w: World, events: seq<Event>)
    decreases |events|
  {
    events == [] || (Enabled(w, events[0]) && LegalRun(Next(w, events[0]), events[1..]))
  }

  ghost function Run(w: World, events: seq<Event>): World
    requires LegalRun(w, events)
    decreases |events|
  {
    if events == [] then w else Run(Next(w, events[0]), events[1..])
  }

  // ----- one request on its own -----

  /** Uninterrupted, a request is the refresh grant. */
  lemma AloneIsRefresh(w: World, s: State, call: nat, refresh: string, client: Client, newRefresh: string, now: Time)
    requires s.tokens == w.tokens && call !in w.calls && FreshString(w, newRefresh) && now > 0
    ensures var w1 := Next(w, Read(call, refresh, client));
            match w1.calls[call]
            case Authenticated(_) =>
              && Enabled(w1, Issue(call, newRefresh)) && Enabled(Next(w1, Issue(call, newRefresh)), Retire(call, now))
              && Next(Next(w1, Issue(call, newRefresh)), Retire(call, now)).tokens ==
                 Refresh(s, refresh, client, newRefresh, now).tokens
            case Replaying(_) =>
              && Enabled(w1, Kill(call, now))
              && Next(w1, Kill(call, now)).tokens == Refresh(s, refresh, client, newRefresh, now).tokens
            case _ => w1.tokens == Refresh(s, refresh, client, newRefresh, now).tokens
  {
    var i := Find(w.tokens, refresh);
    if i.Some? && LiveRow(w.tokens[i.value]) && w.tokens[i.value].client == client {
      var t := w.tokens[i.value];
      var issued := Token(client, t.user, t.family, newRefresh, 0, 0);
      assert (w.tokens + [issued])[i.value := Stamp(t, now)] == w.tokens[i.value := Stamp(t, now)] + [issued];
    }
  }

  /** A disconnection is revoke_client, as far as tokens go. */
  lemma DisconnectIsRevokeClient(w: World, s: State, user: User, client: Client, now: Time)
    requires s.tokens == w.tokens && now > 0
    ensures Next(w, Disconnect(user, client, now)).tokens == RevokeClient(s, user, client, now).tokens
    ensures Next(w, Disconnect(user, client, now)).calls == w.calls
  {
    var none := RevokeFamilies(w.tokens, {}, now);
    assert none == w.tokens;
  }

  // ----- what every interleaving keeps -----

  /** Requests name rows that exist, those they were given newer and of the same family. */
  predicate CallOk(w: World, p: Phase) {
    match p
    case Authenticated(row) => row < |w.tokens|
    case Issued(row, given) => row < given < |w.tokens| && w.tokens[given].family == w.tokens[row].family
    case Redeemed(row, given) => row < given < |w.tokens| && w.tokens[given].family == w.tokens[row].family
    case _ => true
  }

  ghost predicate CallsOk(w: World) {
    forall k :: k in w.calls ==> CallOk(w, w.calls[k])
  }

  /** Rows keep their place and family, and a revoked one stays revoked. */
  lemma StepKeepsRows(w: World, e: Event, i: nat)
    requires Enabled(w, e) && i < |w.tokens|
    ensures i < |Next(w, e).tokens| && Next(w, e).tokens[i].family == w.tokens[i].family
    ensures LiveRow(Next(w, e).tokens[i]) ==> LiveRow(w.tokens[i])
  {
  }

  lemma StepKeepsCallsOk(w: World, e: Event)
    requires Enabled(w, e) && CallsOk(w)
    ensures CallsOk(Next(w, e))
  {
    var w' := Next(w, e);
    forall k | k in w'.calls
      ensures CallOk(w', w'.calls[k])
    {
      if k in w.calls { assert CallOk(w, w.calls[k]); }
    }
  }

  /** The event revokes the whole family. */
  predicate Kills(w: World, e: Event, f: Family)
    requires Enabled(w, e)
  {
    match e
    case Kill(call, _) => w.calls[call].family == f
    case Disconnect(user, client, _) => f in FamiliesOf(w.tokens, user, {client})
    case _ => false
  }

  /** No request is between its read and its end. */
  ghost predicate AtRest(w: World) {
    forall k :: k in w.calls ==> w.calls[k].Redeemed? || w.calls[k].Over?
  }

  function LiveRows(w: World, f: Family): set<nat> {
    set i | 0 <= i < |w.tokens| && w.tokens[i].family == f && LiveRow(w.tokens[i])
  }

  /** The requests that were given a token of the family. */
  function Served(w: World, f: Family): set<nat> {
    set k | k in w.calls && (w.calls[k].Issued? || w.calls[k].Redeemed?) && w.calls[k].row < |w.tokens|
            && w.tokens[w.calls[k].row].family == f
  }

  predicate Redeems(w: World, k: nat, i: nat) {
    k in w.calls && w.calls[k].Redeemed? && w.calls[k].row == i
  }

  ghost predicate WasRedeemed(w: World, i: nat) {
    exists k :: Redeems(w, k, i)
  }

  /** The tokens of the family that were redeemed. */
  ghost function Spent(w: World, f: Family): set<nat> {
    set i | 0 <= i < |w.tokens| && w.tokens[i].family == f && WasRedeemed(w, i)
  }

  lemma RedeemedStep(w: World, e: Event, i: nat)
    requires Enabled(w, e)
    ensures WasRedeemed(Next(w, e), i) <==> WasRedeemed(w, i) || (e.Retire? && w.calls[e.call].row == i)
  {
    var w' := Next(w, e);
    if k :| Redeems(w, k, i) {
      assert Redeems(w', k, i);
    }
    if e.Retire? && w.calls[e.call].row == i {
      assert Redeems(w', e.call, i);
    }
    if k :| Redeems(w', k, i) {
      assert Redeems(w, k, i) || (e.Retire? && k == e.call);
    }
  }

  /** No event of the run revokes the whole family. */
  ghost predicate Unkilled(w: World, events: seq<Event>, f: Family)
    requires LegalRun(w, events)
    decreases |events|
  {
    events == [] || (!Kills(w, events[0], f) && Unkilled(Next(w, events[0]), events[1..], f))
  }

  ghost predicate Exists(w: World, f: Family) {
    exists i :: 0 <= i < |w.tokens| && w.tokens[i].family == f
  }

  // ----- how many tokens are live -----

  /** A token some request still means to redeem is live, unless another has redeemed it. */
  ghost predicate Accounted(w: World, f: Family) {
    && (forall i: nat :: i < |w.tokens| && w.tokens[i].family == f && WasRedeemed(w, i) ==> !LiveRow(w.tokens[i]))
    && forall k :: k in w.calls ==> Pends(w, f, k)
  }

  ghost predicate Pends(w: World, f: Family, k: nat)
    requires k in w.calls
  {
    var p := w.calls[k];
    (p.Authenticated? || p.Issued?) && p.row < |w.tokens| && w.tokens[p.row].family == f ==>
      LiveRow(w.tokens[p.row]) || WasRedeemed(w, p.row)
  }

  lemma StepKeepsAccounted(w: World, e: Event, f: Family)
    requires Enabled(w, e) && CallsOk(w) && !Kills(w, e, f) && Accounted(w, f)
    ensures Accounted(Next(w, e), f)
  {
    var w' := Next(w, e);
    forall i: nat | i < |w'.tokens| && w'.tokens[i].family == f && WasRedeemed(w', i)
      ensures !LiveRow(w'.tokens[i])
    {
      RedeemedStep(w, e, i);
      if i < |w.tokens| { StepKeepsRows(w, e, i); }
    }
    forall k | k in w'.calls
      ensures Pends(w', f, k)
    {
      var p := w'.calls[k];
      if (p.Authenticated? || p.Issued?) && p.row < |w'.tokens| && w'.tokens[p.row].family == f {
        RedeemedStep(w, e, p.row);
        assert k in w.calls ==> Pends(w, f, k) && CallOk(w, w.calls[k]);
      }
    }
  }

  /** What a step that does not revoke the family adds and takes away. */
  lemma StepBalances(w: World, e: Event, f: Family)
    requires Enabled(w, e) && CallsOk(w) && Exists(w, f) && !Kills(w, e, f) && Accounted(w, f)
    ensures var w' := Next(w, e);
            |LiveRows(w', f)| + |Spent(w', f)| - |Served(w', f)| == |LiveRows(w, f)| + |Spent(w, f)| - |Served(w, f)|
  {
    if e.Issue? {
      IssueBalances(w, e, f);
    } else if e.Retire? {
      RetireBalances(w, e, f);
    } else {
      OthersBalance(w, e, f);
    }
  }

  lemma SameSpent(w: World, e: Event, f: Family)
    requires Enabled(w, e) && CallsOk(w) && !e.Retire?
    ensures Spent(Next(w, e), f) == Spent(w, f)
  {
    var w' := Next(w, e);
    forall i: nat
      ensures i in Spent(w', f) <==> i in Spent(w, f)
    {
      RedeemedStep(w, e, i);
      if i < |w.tokens| { StepKeepsRows(w, e, i); }
      if k :| Redeems(w, k, i) { assert CallOk(w, w.calls[k]); }
    }
  }

  lemma OthersBalance(w: World, e: Event, f: Family)
    requires Enabled(w, e) && CallsOk(w) && Exists(w, f) && !Kills(w, e, f) && !e.Issue? && !e.Retire?
    ensures var w' := Next(w, e);
            LiveRows(w', f) == LiveRows(w, f) && Spent(w', f) == Spent(w, f) && Served(w', f) == Served(w, f)
  {
    SameSpent(w, e, f);
    assert Served(Next(w, e), f) == Served(w, f);
    assert LiveRows(Next(w, e), f) == LiveRows(w, f);
  }

  lemma IssueLive(w: World, e: Event, f: Family)
    requires Enabled(w, e) && e.Issue?
    ensures LiveRows(Next(w, e), f) ==
            LiveRows(w, f) + if w.tokens[w.calls[e.call].row].family == f then {|w.tokens|} else {}
  {
  }

  lemma IssueServed(w: World, e: Event, f: Family)
    requires Enabled(w, e) && CallsOk(w) && e.Issue?
    ensures Served(Next(w, e), f) == Served(w, f) + if w.tokens[w.calls[e.call].row].family == f then {e.call} else {}
  {
    forall k | k in w.calls
      ensures CallOk(w, w.calls[k])
    {
    }
  }

  lemma IssueBalances(w: World, e: Event, f: Family)
    requires Enabled(w, e) && CallsOk(w) && e.Issue?
    ensures var w' := Next(w, e);
            |LiveRows(w', f)| - |Served(w', f)| == |LiveRows(w, f)| - |Served(w, f)| && Spent(w', f) == Spent(w, f)
  {
    SameSpent(w, e, f);
    IssueLive(w, e, f);
    IssueServed(w, e, f);
    assert |w.tokens| !in LiveRows(w, f) && e.call !in Served(w, f);
  }

  lemma RetireLive(w: World, e: Event, f: Family)
    requires Enabled(w, e) && e.Retire?
    ensures LiveRows(Next(w, e), f) == LiveRows(w, f) - {w.calls[e.call].row}
  {
  }

  lemma RetireServed(w: World, e: Event, f: Family)
    requires Enabled(w, e) && CallsOk(w) && e.Retire?
    ensures Served(Next(w, e), f) == Served(w, f)
  {
    assert CallOk(w, w.calls[e.call]);
  }

  lemma RetireSpends(w: World, e: Event, f: Family)
    requires Enabled(w, e) && e.Retire?
    ensures var row := w.calls[e.call].row;
            Spent(Next(w, e), f) == Spent(w, f) + if w.tokens[row].family == f then {row} else {}
  {
    var w' := Next(w, e);
    forall i: nat
      ensures WasRedeemed(w', i) <==> WasRedeemed(w, i) || i == w.calls[e.call].row
    {
      RedeemedStep(w, e, i);
    }
  }

  /** A redeemed token was live, or was redeemed before. */
  lemma RetireBalances(w: World, e: Event, f: Family)
    requires Enabled(w, e) && CallsOk(w) && Accounted(w, f) && e.Retire?
    ensures var w' := Next(w, e);
            |LiveRows(w', f)| + |Spent(w', f)| == |LiveRows(w, f)| + |Spent(w, f)| && Served(w', f) == Served(w, f)
  {
    var row := w.calls[e.call].row;
    RetireLive(w, e, f);
    RetireServed(w, e, f);
    RetireSpends(w, e, f);
    assert Pends(w, f, e.call);
    if w.tokens[row].family == f {
      assert row in LiveRows(w, f) <==> row !in Spent(w, f);
      Moves(LiveRows(w, f), Spent(w, f), row);
    } else {
      assert LiveRows(w, f) - {row} == LiveRows(w, f);
    }
  }

  lemma Moves(a: set<nat>, b: set<nat>, x: nat)
    requires x in a <==> x !in b
    ensures |a - {x}| + |b + {x}| == |a| + |b|
  {
    if x in a {
      assert |b + {x}| == |b| + 1 && |a - {x}| == |a| - 1;
    } else {
      assert b + {x} == b && a - {x} == a;
    }
  }

  lemma StillExists(w: World, e: Event, f: Family)
    requires Enabled(w, e) && Exists(w, f)
    ensures Exists(Next(w, e), f)
  {
    var i :| 0 <= i < |w.tokens| && w.tokens[i].family == f;
    StepKeepsRows(w, e, i);
  }

  lemma {:induction false} RunBalances(w: World, events: seq<Event>, f: Family)
    requires LegalRun(w, events) && CallsOk(w) && Exists(w, f) && Unkilled(w, events, f) && Accounted(w, f)
    ensures var w' := Run(w, events);
            && CallsOk(w') && Exists(w', f)
            && |LiveRows(w', f)| + |Spent(w', f)| - |Served(w', f)| == |LiveRows(w, f)| + |Spent(w, f)| - |Served(w, f)|
    decreases |events|
  {
    if events == [] {
    } else {
      StepBalances(w, events[0], f);
      StepKeepsAccounted(w, events[0], f);
      StepKeepsCallsOk(w, events[0]);
      StillExists(w, events[0], f);
      RunBalances(Next(w, events[0]), events[1..], f);
    }
  }

  /** Two requests redeemed the same token. */
  ghost predicate RedeemedTwice(w: World, f: Family) {
    exists k, h :: k in Served(w, f) && h in Served(w, f) && k != h && w.calls[k].row == w.calls[h].row
  }

  lemma {:induction false} ImageSize(w: World, ks: set<nat>, rows: set<nat>)
    requires forall k :: k in ks ==> k in w.calls && w.calls[k].Redeemed?
    requires forall r :: r in rows <==> exists k :: k in ks && w.calls[k].row == r
    ensures |rows| <= |ks|
    ensures |rows| == |ks| <==> forall k, h :: k in ks && h in ks && k != h ==> w.calls[k].row != w.calls[h].row
    decreases |ks|
  {
    if ks == {} {
      assert rows == {};
    } else {
      var k :| k in ks;
      var row := w.calls[k].row;
      var rest := ks - {k};
      var left := set r | r in rows && exists h :: h in rest && w.calls[h].row == r;
      ImageSize(w, rest, left);
      if row in left {
        assert rows == left;
      } else {
        assert rows == left + {row};
      }
    }
  }

  lemma SpentIsImage(w: World, f: Family)
    requires CallsOk(w) && AtRest(w)
    ensures forall k :: k in Served(w, f) ==> k in w.calls && w.calls[k].Redeemed?
    ensures forall r :: r in Spent(w, f) <==> exists k :: k in Served(w, f) && w.calls[k].row == r
  {
    forall r
      ensures r in Spent(w, f) <==> exists k :: k in Served(w, f) && w.calls[k].row == r
    {
      if r in Spent(w, f) {
        var k :| Redeems(w, k, r);
        assert k in Served(w, f);
      }
      if k :| k in Served(w, f) && w.calls[k].row == r {
        assert Redeems(w, k, r) && CallOk(w, w.calls[k]);
      }
    }
  }

  /** Main result: a family that begins with one live token, and that no replay and no disconnection revokes,
      ends with one live token for every token handed out in excess of the tokens redeemed, and one more: with
      exactly one if and only if no token was redeemed by two requests. */
  lemma OneLiveIff(w: World, events: seq<Event>, f: Family)
    requires w.calls == map[] && |LiveRows(w, f)| == 1
    requires LegalRun(w, events) && Unkilled(w, events, f) && AtRest(Run(w, events))
    ensures var w' := Run(w, events);
            && |LiveRows(w', f)| == 1 + |Served(w', f)| - |Spent(w', f)|
            && (|LiveRows(w', f)| == 1 <==> !RedeemedTwice(w', f))
  {
    var w' := Run(w, events);
    assert exists i :: i in LiveRows(w, f) by {
      if LiveRows(w, f) == {} { assert false; }
    }
    assert forall i :: !WasRedeemed(w, i);
    assert Spent(w, f) == {} && Served(w, f) == {};
    RunBalances(w, events, f);
    SpentIsImage(w', f);
    ImageSize(w', Served(w', f), Spent(w', f));
  }

  // ----- a family that was revoked -----

  ghost predicate IssuesInto(w: World, events: seq<Event>, f: Family)
    requires LegalRun(w, events)
    decreases |events|
  {
    events != [] && (IssuesNow(w, events[0], f) || IssuesInto(Next(w, events[0]), events[1..], f))
  }

  predicate IssuesNow(w: World, e: Event, f: Family)
    requires Enabled(w, e)
  {
    e.Issue? && w.tokens[w.calls[e.call].row].family == f
  }

  lemma KilledIsDead(w: World, e: Event, f: Family)
    requires Enabled(w, e) && Kills(w, e, f)
    ensures LiveRows(Next(w, e), f) == {}
  {
  }

  /** The family has `m` rows' worth of revoked past; every later row of it is live or was redeemed. */
  ghost predicate DeadUpTo(w: World, f: Family, m: nat) {
    m <= |w.tokens| && forall i: nat :: i < |w.tokens| ==> DeadOrRedeemed(w, f, m, i)
  }

  ghost predicate DeadOrRedeemed(w: World, f: Family, m: nat, i: nat)
    requires i < |w.tokens|
  {
    w.tokens[i].family == f ==> if i < m then !LiveRow(w.tokens[i]) else LiveRow(w.tokens[i]) || WasRedeemed(w, i)
  }

  ghost predicate Renewed(w: World, f: Family, m: nat) {
    exists i :: m <= i < |w.tokens| && w.tokens[i].family == f
  }

  lemma StepKeepsDeadUpTo(w: World, e: Event, f: Family, m: nat)
    requires Enabled(w, e) && Exists(w, f) && !Kills(w, e, f) && DeadUpTo(w, f, m)
    ensures DeadUpTo(Next(w, e), f, m)
    ensures Renewed(Next(w, e), f, m) <==> Renewed(w, f, m) || IssuesNow(w, e, f)
  {
    var w' := Next(w, e);
    forall i: nat | i < |w'.tokens|
      ensures DeadOrRedeemed(w', f, m, i)
    {
      RedeemedStep(w, e, i);
      if i < |w.tokens| {
        StepKeepsRows(w, e, i);
        assert DeadOrRedeemed(w, f, m, i);
      }
    }
    if i :| m <= i < |w.tokens| && w.tokens[i].family == f {
      StepKeepsRows(w, e, i);
    }
    if IssuesNow(w, e, f) {
      assert w'.tokens[|w.tokens|].family == f;
    }
    if i :| m <= i < |w'.tokens| && w'.tokens[i].family == f {
      if i < |w.tokens| { StepKeepsRows(w, e, i); }
    }
  }

  lemma {:induction false} RunKeepsDeadUpTo(w: World, events: seq<Event>, f: Family, m: nat)
    requires LegalRun(w, events) && CallsOk(w) && Exists(w, f) && Unkilled(w, events, f) && DeadUpTo(w, f, m)
    ensures DeadUpTo(Run(w, events), f, m) && CallsOk(Run(w, events))
    ensures Renewed(Run(w, events), f, m) <==> Renewed(w, f, m) || IssuesInto(w, events, f)
    decreases |events|
  {
    if events == [] {
    } else {
      StepKeepsDeadUpTo(w, events[0], f, m);
      StepKeepsCallsOk(w, events[0]);
      StillExists(w, events[0], f);
      RunKeepsDeadUpTo(Next(w, events[0]), events[1..], f, m);
    }
  }

  lemma {:induction false} LastOf(w: World, f: Family, m: nat, i: nat) returns (j: nat)
    requires m <= i < |w.tokens| && w.tokens[i].family == f
    ensures m <= j < |w.tokens| && w.tokens[j].family == f && forall k :: j < k < |w.tokens| ==> w.tokens[k].family != f
    decreases |w.tokens| - i
  {
    if k :| i < k < |w.tokens| && w.tokens[k].family == f {
      j := LastOf(w, f, m, k);
    } else {
      j := i;
    }
  }

  /** The newest token of a family has not been redeemed: whoever redeems a token gets a newer one. */
  lemma NewestIsUnredeemed(w: World, f: Family, j: nat)
    requires CallsOk(w) && j < |w.tokens| && w.tokens[j].family == f
    requires forall k :: j < k < |w.tokens| ==> w.tokens[k].family != f
    ensures !WasRedeemed(w, j)
  {
    forall k
      ensures !Redeems(w, k, j)
    {
      if k in w.calls { assert CallOk(w, w.calls[k]); }
    }
  }

  /** Main result: when a replay or a disconnection has revoked a family, for the last time in the run, the
      family ends with a live token if and only if a token was issued into it after that. */
  lemma AliveAgainIff(w: World, e: Event, events: seq<Event>, f: Family)
    requires CallsOk(w) && Exists(w, f) && Enabled(w, e) && Kills(w, e, f)
    requires LegalRun(Next(w, e), events) && Unkilled(Next(w, e), events, f)
    ensures LiveRows(Run(Next(w, e), events), f) != {} <==> IssuesInto(Next(w, e), events, f)
  {
    var w1, w' := Next(w, e), Run(Next(w, e), events);
    var m := |w1.tokens|;
    KilledIsDead(w, e, f);
    forall i: nat | i < m
      ensures DeadOrRedeemed(w1, f, m, i)
    {
      assert i !in LiveRows(w1, f);
    }
    StepKeepsCallsOk(w, e);
    StillExists(w, e, f);
    RunKeepsDeadUpTo(w1, events, f, m);
    if i :| m <= i < |w'.tokens| && w'.tokens[i].family == f {
      var j := LastOf(w', f, m, i);
      NewestIsUnredeemed(w', f, j);
      assert DeadOrRedeemed(w', f, m, j);
      assert j in LiveRows(w', f);
    }
    if i :| i in LiveRows(w', f) {
      assert DeadOrRedeemed(w', f, m, i);
      assert Renewed(w', f, m);
    }
  }

  // ----- runs that go wrong -----

  /** One family, one live token, nothing in flight. */
  function OneToken(client: Client, user: User, f: Family, refresh: string): World {
    World([Token(client, user, f, refresh, 0, 0)], map[])
  }

  /** Run one event and go on. */
  lemma Then(w: World, e: Event, rest: seq<Event>)
    requires Enabled(w, e) && LegalRun(Next(w, e), rest)
    ensures LegalRun(w, [e] + rest) && Run(w, [e] + rest) == Run(Next(w, e), rest)
  {
    assert ([e] + rest)[1..] == rest;
  }

  /** Two requests read the token before either revokes it: the family ends with two live tokens. */
  lemma BothRedeem(client: Client, user: User, f: Family, a: string, b: string, c: string)
    returns (events: seq<Event>)
    requires a != b && a != c && b != c
    ensures var w := OneToken(client, user, f, a);
            && LegalRun(w, events) && AtRest(Run(w, events))
            && RedeemedTwice(Run(w, events), f) && |LiveRows(Run(w, events), f)| == 2
  {
    var w := OneToken(client, user, f, a);
    assert Find(w.tokens, a) == Some(0);
    var w1 := Next(w, Read(1, a, client));
    var w2 := Next(w1, Read(2, a, client));
    var rest, w6 := BothGiven(w2, client, user, f, a, b, c);
    Then(w1, Read(2, a, client), rest);
    Then(w, Read(1, a, client), [Read(2, a, client)] + rest);
    events := [Read(1, a, client)] + ([Read(2, a, client)] + rest);
    BothRedeemed(w6, client, user, f, b, c);
  }

  /** Both have read: each saves its token and revokes the old one. */
  lemma BothGiven(w2: World, client: Client, user: User, f: Family, a: string, b: string, c: string)
    returns (events: seq<Event>, w6: World)
    requires a != b && a != c && b != c
    requires w2.tokens == [Token(client, user, f, a, 0, 0)]
    requires w2.calls == map[1 := Authenticated(0), 2 := Authenticated(0)]
    ensures LegalRun(w2, events) && Run(w2, events) == w6
    ensures |w6.tokens| == 3 && !LiveRow(w6.tokens[0]) && w6.tokens[0].family == f
    ensures w6.tokens[1..] == [Token(client, user, f, b, 0, 0), Token(client, user, f, c, 0, 0)]
    ensures w6.calls == map[1 := Redeemed(0, 1), 2 := Redeemed(0, 2)]
  {
    var w3 := Next(w2, Issue(1, b));
    var w4 := Next(w3, Retire(1, 1));
    var w5 := Next(w4, Issue(2, c));
    w6 := Next(w5, Retire(2, 2));
    Then(w5, Retire(2, 2), []);
    Then(w4, Issue(2, c), [Retire(2, 2)]);
    Then(w3, Retire(1, 1), [Issue(2, c)] + [Retire(2, 2)]);
    Then(w2, Issue(1, b), [Retire(1, 1)] + ([Issue(2, c)] + [Retire(2, 2)]));
    events := [Issue(1, b)] + ([Retire(1, 1)] + ([Issue(2, c)] + [Retire(2, 2)]));
  }

  lemma BothRedeemed(w: World, client: Client, user: User, f: Family, b: string, c: string)
    requires |w.tokens| == 3 && !LiveRow(w.tokens[0])
    requires w.tokens[1..] == [Token(client, user, f, b, 0, 0), Token(client, user, f, c, 0, 0)]
    requires w.tokens[0].family == f && w.calls == map[1 := Redeemed(0, 1), 2 := Redeemed(0, 2)]
    ensures AtRest(w) && RedeemedTwice(w, f) && |LiveRows(w, f)| == 2
  {
    assert w.tokens[1] == w.tokens[1..][0] && w.tokens[2] == w.tokens[1..][1];
    assert 1 in Served(w, f) && 2 in Served(w, f);
    assert LiveRows(w, f) == {1, 2};
  }

  /** The client is disconnected while a refresh is under way: the family is alive again at rest. */
  lemma RenewedAfterDisconnect(client: Client, user: User, f: Family, a: string, b: string)
    returns (events: seq<Event>)
    requires a != b
    ensures var w := OneToken(client, user, f, a);
            && LegalRun(w, events) && AtRest(Run(w, events)) && LiveRows(Run(w, events), f) == {1}
            && |events| == 4 && events[1] == Disconnect(user, client, 1)
  {
    var w := OneToken(client, user, f, a);
    assert Find(w.tokens, a) == Some(0);
    var w1 := Next(w, Read(1, a, client));
    var w2 := Next(w1, Disconnect(user, client, 1));
    assert w.tokens[0].family in FamiliesOf(w.tokens, user, {client});
    var w3 := Next(w2, Issue(1, b));
    var w4 := Next(w3, Retire(1, 2));
    Then(w3, Retire(1, 2), []);
    Then(w2, Issue(1, b), [Retire(1, 2)]);
    var e2 := [Issue(1, b)] + [Retire(1, 2)];
    Then(w1, Disconnect(user, client, 1), e2);
    var e1 := [Disconnect(user, client, 1)] + e2;
    Then(w, Read(1, a, client), e1);
    events := [Read(1, a, client)] + e1;
    assert LiveRows(w4, f) == {1};
  }
}
