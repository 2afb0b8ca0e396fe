/** Refresh-token lineages: rotation within a family, reuse detection, and revocation of a client or of
    all of a user's clients. One token request is one atomic step; the random values it draws (a new
    family, a new refresh string) are arguments that must be new. */
module OAuthTokens {
  import opened Basics

  type User = nat
  type Client = nat
  type Family = nat
  type Time = nat

  /** One oauth token row; a revocation stamp of 0 means not revoked. */
  datatype Token = Token(client: Client, user: User, family: Family, refresh: string,
                         refreshRevokedAt: Time, accessRevokedAt: Time)

  datatype Code = Code(client: Client, user: User, issuedAt: Time)

  const CODE_TTL: Time := 300

  datatype Grant = Grant(user: User, client: Client)

  datatype State = State(tokens: seq<Token>, codes: map<string, Code>, watermark: map<Grant, Time>)

  function Stamp(t: Token, now: Time): Token {
    t.(refreshRevokedAt := now, accessRevokedAt := now)
  }

  /** update(...) over the rows of some families. */
  function RevokeFamilies(tokens: seq<Token>, fams: set<Family>, now: Time): (r: seq<Token>)
    ensures |r| == |tokens|
    ensures forall i :: 0 <= i < |r| ==> r[i] == if tokens[i].family in fams then Stamp(tokens[i], now) else tokens[i]
  {
    seq(|tokens|, i requires 0 <= i < |tokens| => if tokens[i].family in fams then Stamp(tokens[i], now) else tokens[i])
  }

  /** filter(refresh_token=...).first() */
  function Find(tokens: seq<Token>, refresh: string): (r: Option<nat>)
    ensures r.Some? ==> r.value < |tokens| && tokens[r.value].refresh == refresh
    ensures r.None? ==> forall i :: 0 <= i < |tokens| ==> tokens[i].refresh != refresh
  {
    if tokens == [] then None
    else
      var n := |tokens| - 1;
      var before := Find(tokens[..n], refresh);
      if before.Some? then before
      else if tokens[n].refresh == refresh then Some(n)
      else None
  }

  // ----- the steps -----

  /** The client's own code, at most five minutes old. */
  predicate Redeemable(codes: map<string, Code>, code: string, client: Client, now: Time) {
    code in codes && codes[code].client == client && !(codes[code].issuedAt + CODE_TTL < now)
  }

  /** The authorization-code grant: the code is consumed and a lineage begins. `verified` is the outcome
      of the code-challenge check made on a redeemable code. */
  function Exchange(s: State, code: string, client: Client, refresh: string, family: Family, verified: bool,
                    now: Time): State
  {
    if Redeemable(s.codes, code, client, now) && verified then
      s.(tokens := s.tokens + [Token(client, s.codes[code].user, family, refresh, 0, 0)],
         codes := s.codes - {code})
    else s
  }

  datatype Outcome = Rotated(token: Token) | Unknown | Reused | WrongClient

  /** What the refresh grant decides before it writes anything. */
  function Check(s: State, refresh: string, client: Client, newRefresh: string): Outcome {
    var i := Find(s.tokens, refresh);
    if i.None? then Unknown
    else
      var t := s.tokens[i.value];
      if t.refreshRevokedAt != 0 then Reused
      else if t.client != client then WrongClient
      else Rotated(Token(client, t.user, t.family, newRefresh, 0, 0))
  }

  /** The refresh-token grant: authenticate, issue into the same family, revoke the old row; a
      revoked string presented again revokes its whole family. */
  function Refresh(s: State, refresh: string, client: Client, newRefresh: string, now: Time): State {
    match Check(s, refresh, client, newRefresh)
    case Rotated(t) =>
      var i := Find(s.tokens, refresh).value;
      s.(tokens := s.tokens[i := Stamp(s.tokens[i], now)] + [t])
    case Reused =>
      s.(tokens := RevokeFamilies(s.tokens, {s.tokens[Find(s.tokens, refresh).value].family}, now))
    case _ => s
  }

  function FamiliesOf(tokens: seq<Token>, user: User, clients: set<Client>): set<Family> {
    set i | 0 <= i < |tokens| && tokens[i].user == user && tokens[i].client in clients :: tokens[i].family
  }

  function RevokeClient(s: State, user: User, client: Client, now: Time): State {
    var fams := FamiliesOf(s.tokens, user, {client});
    if fams == {} then s
    else s.(tokens := RevokeFamilies(s.tokens, fams, now), watermark := s.watermark[Grant(user, client) := now])
  }

  /** The clients with a live refresh token of the user. */
  function ActiveClients(tokens: seq<Token>, user: User): set<Client> {
    set i | 0 <= i < |tokens| && tokens[i].user == user && tokens[i].refreshRevokedAt == 0 :: tokens[i].client
  }

  function Watermarked(watermark: map<Grant, Time>, user: User, clients: set<Client>, now: Time): map<Grant, Time> {
    watermark + map c | c in clients :: Grant(user, c) := now
  }

  function RevokeUser(s: State, user: User, now: Time): State {
    var clients := ActiveClients(s.tokens, user);
    s.(tokens := RevokeFamilies(s.tokens, FamiliesOf(s.tokens, user, clients), now),
       watermark := Watermarked(s.watermark, user, clients, now))
  }

  datatype Op =
    | DoIssueCode(code: string, client: Client, user: User)
    | DoExchange(code: string, client: Client, refresh: string, family: Family, verified: bool)
    | DoRefresh(refresh: string, client: Client, newRefresh: string)
    | DoRevokeClient(user: User, client: Client)
    | DoRevokeUser(user: User)

  ghost predicate NewString(s: State, refresh: string) {
    forall i :: 0 <= i < |s.tokens| ==> s.tokens[i].refresh != refresh
  }

  ghost predicate NewFamily(s: State, family: Family) {
    forall i :: 0 <= i < |s.tokens| ==> s.tokens[i].family != family
  }

  /** Random draws do not collide, and the clock has started. */
  ghost predicate Legal(s: State, op: Op, now: Time) {
    now > 0 &&
    match op
    case DoIssueCode(code, _, _) => code !in s.codes
    case DoExchange(_, _, refresh, family, _) => NewString(s, refresh) && NewFamily(s, family)
    case DoRefresh(_, _, newRefresh) => NewString(s, newRefresh)
    case _ => true
  }

  function Apply(s: State, op: Op, now: Time): State {
    match op
    case DoIssueCode(code, client, user) => s.(codes := s.codes[code := Code(client, user, now)])
    case DoExchange(code, client, refresh, family, verified) =>
      Exchange(s, code, client, refresh, family, verified, now)
    case DoRefresh(refresh, client, newRefresh) => Refresh(s, refresh, client, newRefresh, now)
    case DoRevokeClient(user, client) => RevokeClient(s, user, client, now)
    case DoRevokeUser(user) => RevokeUser(s, user, now)
  }

  datatype Timed = Timed(op: Op, now: Time)

  ghost predicate LegalRun(s: State, ops: seq<Timed>)
    decreases |ops|
  {
    ops == [] || (Legal(s, ops[0].op, ops[0].now) && LegalRun(Apply(s, ops[0].op, ops[0].now), ops[1..]))
  }

  ghost function Run(s: State, ops: seq<Timed>): State
    requires LegalRun(s, ops)
    decreases |ops|
  {
    if ops == [] then s else Run(Apply(s, ops[0].op, ops[0].now), ops[1..])
  }

  // ----- what every run keeps -----

  predicate LiveRow(t: Token) {
    t.refreshRevokedAt == 0
  }

  /** Distinct refresh strings; a family belongs to one user and client and has at most one live row. */
  ghost predicate Lineages(s: State) {
    forall i, j :: 0 <= i < j < |s.tokens| ==>
      var a, b := s.tokens[i], s.tokens[j];
      && a.refresh != b.refresh
      && (a.family == b.family ==> a.user == b.user && a.client == b.client && !(LiveRow(a) && LiveRow(b)))
  }

  /** The family exists and has no live row. */
  ghost predicate Dead(s: State, family: Family) {
    && (exists i :: 0 <= i < |s.tokens| && s.tokens[i].family == family)
    && (forall i :: 0 <= i < |s.tokens| && s.tokens[i].family == family ==> !LiveRow(s.tokens[i]))
  }

  /** The refresh string has been spent or revoked. */
  ghost predicate Spent(s: State, refresh: string) {
    exists i :: 0 <= i < |s.tokens| && s.tokens[i].refresh == refresh && !LiveRow(s.tokens[i])
  }

  lemma StepKeepsLineages(s: State, op: Op, now: Time)
    requires Lineages(s) && Legal(s, op, now)
    ensures Lineages(Apply(s, op, now))
  {
    match op
    case DoIssueCode(_, _, _) =>
    case DoExchange(_, _, _, _, _) =>
    case DoRefresh(refresh, client, newRefresh) => RefreshKeepsLineages(s, refresh, client, newRefresh, now);
    case DoRevokeClient(user, client) => RevokingKeepsLineages(s, FamiliesOf(s.tokens, user, {client}), now);
    case DoRevokeUser(user) => RevokingKeepsLineages(s, FamiliesOf(s.tokens, user, ActiveClients(s.tokens, user)), now);
  }

  lemma RevokingKeepsLineages(s: State, fams: set<Family>, now: Time)
    requires Lineages(s) && now > 0
    ensures Lineages(s.(tokens := RevokeFamilies(s.tokens, fams, now)))
  {
  }

  lemma RefreshKeepsLineages(s: State, refresh: string, client: Client, newRefresh: string, now: Time)
    requires Lineages(s) && now > 0 && NewString(s, newRefresh)
    ensures Lineages(Refresh(s, refresh, client, newRefresh, now))
  {
    if Check(s, refresh, client, newRefresh) == Reused {
      RevokingKeepsLineages(s, {s.tokens[Find(s.tokens, refresh).value].family}, now);
    }
  }

  /** Rows keep their place and identity, and a revoked one stays revoked. */
  lemma StepKeepsRevoked(s: State, op: Op, now: Time, i: nat)
    requires Legal(s, op, now) && i < |s.tokens|
    ensures var s' := Apply(s, op, now);
            && i < |s'.tokens|
            && s'.tokens[i].(refreshRevokedAt := 0, accessRevokedAt := 0) ==
                s.tokens[i].(refreshRevokedAt := 0, accessRevokedAt := 0)
            && (LiveRow(s'.tokens[i]) ==> LiveRow(s.tokens[i]))
  {
  }

  /** No step puts a live row into a dead family. */
  lemma StepKeepsDead(s: State, op: Op, now: Time, family: Family)
    requires Legal(s, op, now) && Dead(s, family)
    ensures Dead(Apply(s, op, now), family)
  {
    var s' := Apply(s, op, now);
    var k :| 0 <= k < |s.tokens| && s.tokens[k].family == family;
    StepKeepsRevoked(s, op, now, k);
    forall i | 0 <= i < |s'.tokens| && s'.tokens[i].family == family
      ensures !LiveRow(s'.tokens[i])
    {
      if i < |s.tokens| { StepKeepsRevoked(s, op, now, i); }
    }
  }

  lemma StepKeepsSpent(s: State, op: Op, now: Time, refresh: string)
    requires Legal(s, op, now) && Spent(s, refresh)
    ensures Spent(Apply(s, op, now), refresh)
  {
    var k :| 0 <= k < |s.tokens| && s.tokens[k].refresh == refresh && !LiveRow(s.tokens[k]);
    StepKeepsRevoked(s, op, now, k);
  }

  /** Main result: over every run, families keep one owner and at most one live refresh token, dead
      families stay dead and spent refresh strings stay spent. */
  lemma {:induction false} RunKeepsLineages(s: State, ops: seq<Timed>)
    requires Lineages(s) && LegalRun(s, ops)
    ensures Lineages(Run(s, ops))
    ensures forall f: Family :: Dead(s, f) ==> Dead(Run(s, ops), f)
    ensures forall r: string :: Spent(s, r) ==> Spent(Run(s, ops), r)
    decreases |ops|
  {
    if ops == [] {
    } else {
      var op, now := ops[0].op, ops[0].now;
      var s1 := Apply(s, op, now);
      StepKeepsLineages(s, op, now);
      forall f: Family | Dead(s, f)
        ensures Dead(s1, f)
      {
        StepKeepsDead(s, op, now, f);
      }
      forall r: string | Spent(s, r)
        ensures Spent(s1, r)
      {
        StepKeepsSpent(s, op, now, r);
      }
      RunKeepsLineages(s1, ops[1..]);
    }
  }

  // ----- what each request does -----

  /** A code is redeemed exactly by its own client, once the challenge check passes, and up to 300 seconds after
      it was issued; it is then gone, and its user has one more token, live, of that client and a new family.
      Otherwise nothing changes. */
  lemma ExchangeDoes(s: State, code: string, client: Client, refresh: string, family: Family, verified: bool, now: Time)
    ensures var s' := Exchange(s, code, client, refresh, family, verified, now);
            if code in s.codes && s.codes[code].client == client && verified && now <= s.codes[code].issuedAt + 300
            then
              && s'.tokens == s.tokens + [Token(client, s.codes[code].user, family, refresh, 0, 0)]
              && s'.watermark == s.watermark && code !in s'.codes
              && forall other :: other != code ==>
                   (other in s'.codes <==> other in s.codes) && (other in s.codes ==> s'.codes[other] == s.codes[other])
            else s' == s
  {
  }

  /** What a refresh answers: the string is unknown, or its token was revoked, whoever presents it, or is another
      client's, or it is rotated. */
  lemma CheckIff(s: State, refresh: string, client: Client, newRefresh: string, i: nat)
    requires Lineages(s)
    ensures Check(s, refresh, client, newRefresh) == Unknown <==> NewString(s, refresh)
    ensures i < |s.tokens| && s.tokens[i].refresh == refresh ==>
              var t := s.tokens[i];
              Check(s, refresh, client, newRefresh) ==
              if t.refreshRevokedAt > 0 then Reused
              else if t.client != client then WrongClient
              else Rotated(Token(t.client, t.user, t.family, newRefresh, 0, 0))
  {
    if i < |s.tokens| && s.tokens[i].refresh == refresh {
      assert Find(s.tokens, refresh) == Some(i);
    }
  }

  /** A rotation stamps the token presented, adds its successor, live and of the same family, and touches no
      other; reuse stamps the whole family and nothing else; otherwise nothing changes. */
  lemma RefreshDoes(s: State, refresh: string, client: Client, newRefresh: string, now: Time, i: nat, j: nat)
    requires Lineages(s) && i < |s.tokens| && s.tokens[i].refresh == refresh && j < |s.tokens|
    ensures var s', t, u := Refresh(s, refresh, client, newRefresh, now), s.tokens[i], s.tokens[j];
            && s'.codes == s.codes && s'.watermark == s.watermark
            && (t.refreshRevokedAt > 0 ==>
                  && |s'.tokens| == |s.tokens|
                  && s'.tokens[j] ==
                     if u.family == t.family then u.(refreshRevokedAt := now, accessRevokedAt := now) else u)
            && (t.refreshRevokedAt == 0 && t.client != client ==> s' == s)
            && (t.refreshRevokedAt == 0 && t.client == client ==>
                  && |s'.tokens| == |s.tokens| + 1
                  && s'.tokens[|s.tokens|] == Token(client, t.user, t.family, newRefresh, 0, 0)
                  && s'.tokens[j] == if j == i then t.(refreshRevokedAt := now, accessRevokedAt := now) else u)
  {
    CheckIff(s, refresh, client, newRefresh, i);
    assert Find(s.tokens, refresh) == Some(i);
  }

  /** An unknown string changes nothing. */
  lemma UnknownDoesNothing(s: State, refresh: string, client: Client, newRefresh: string, now: Time)
    requires NewString(s, refresh)
    ensures Refresh(s, refresh, client, newRefresh, now) == s
  {
  }

  /** Disabling a user stamps the tokens of each client with a live refresh token of theirs, and that client's
      watermark, and nothing else. */
  lemma DisableDoes(s: State, user: User, now: Time, i: nat, g: Grant)
    requires Lineages(s) && now > 0 && i < |s.tokens|
    ensures var s' := RevokeUser(s, user, now);
            && s'.codes == s.codes && |s'.tokens| == |s.tokens|
            && s'.tokens[i] == (if s.tokens[i].user == user && HasLive(s, user, s.tokens[i].client)
                                then s.tokens[i].(refreshRevokedAt := now, accessRevokedAt := now) else s.tokens[i])
            && (g.user == user && HasLive(s, user, g.client) ==> g in s'.watermark && s'.watermark[g] == now)
            && (!(g.user == user && HasLive(s, user, g.client)) ==>
                  (g in s'.watermark <==> g in s.watermark) && (g in s.watermark ==> s'.watermark[g] == s.watermark[g]))
  {
    var clients := ActiveClients(s.tokens, user);
    var fams := FamiliesOf(s.tokens, user, clients);
    assert forall c :: c in clients <==> HasLive(s, user, c);
    if s.tokens[i].family in fams {
      var k :| 0 <= k < |s.tokens| && s.tokens[k].user == user && s.tokens[k].client in clients
               && s.tokens[k].family == s.tokens[i].family;
      assert k == i || k < i || i < k;
    }
  }

  ghost predicate HasLive(s: State, user: User, client: Client) {
    exists k :: 0 <= k < |s.tokens| && s.tokens[k].user == user && s.tokens[k].client == client
                && s.tokens[k].refreshRevokedAt == 0
  }

  // ----- what kills a family -----

  /** Presenting a revoked refresh string kills its family, whichever client presents it. */
  lemma ReplayKills(s: State, refresh: string, client: Client, newRefresh: string, now: Time, i: nat)
    requires Lineages(s) && now > 0 && i < |s.tokens| && s.tokens[i].refresh == refresh && !LiveRow(s.tokens[i])
    ensures Check(s, refresh, client, newRefresh) == Reused
    ensures Dead(Refresh(s, refresh, client, newRefresh, now), s.tokens[i].family)
  {
  }

  /** Disconnecting a client kills every family of that user and client, and no other. */
  lemma RevokeClientKills(s: State, user: User, client: Client, now: Time, i: nat)
    requires Lineages(s) && now > 0 && i < |s.tokens|
    ensures var s' := RevokeClient(s, user, client, now);
            && s'.codes == s.codes && |s'.tokens| == |s.tokens|
            && if s.tokens[i].user == user && s.tokens[i].client == client
               then
                 && Dead(s', s.tokens[i].family) && s'.watermark == s.watermark[Grant(user, client) := now]
                 && s'.tokens[i] == s.tokens[i].(refreshRevokedAt := now, accessRevokedAt := now)
               else s'.tokens[i] == s.tokens[i]
  {
    var fams := FamiliesOf(s.tokens, user, {client});
    var s' := RevokeClient(s, user, client, now);
    assert s'.tokens[i].family == s.tokens[i].family;
    forall k | 0 <= k < |s.tokens| && s.tokens[k].family == s.tokens[i].family
      ensures s.tokens[k].user == s.tokens[i].user && s.tokens[k].client == s.tokens[i].client
    {
      assert k == i || k < i || i < k;
    }
    assert s.tokens[i].user == user && s.tokens[i].client == client ==> s.tokens[i].family in fams;
  }

  /** A client the user never connected leaves no watermark behind. */
  lemma NeverConnected(s: State, user: User, client: Client, now: Time)
    requires forall i :: 0 <= i < |s.tokens| ==> s.tokens[i].user != user || s.tokens[i].client != client
    ensures RevokeClient(s, user, client, now) == s
  {
  }

  /** Once a refresh string has been redeemed, no later request of any run redeems it again. */
  lemma RedeemedOnce(s: State, refresh: string, client: Client, newRefresh: string, now: Time, ops: seq<Timed>,
                     client': Client, other: string)
    requires Lineages(s) && Legal(s, DoRefresh(refresh, client, newRefresh), now)
    requires Check(s, refresh, client, newRefresh).Rotated?
    requires LegalRun(Refresh(s, refresh, client, newRefresh, now), ops)
    ensures Check(Run(Refresh(s, refresh, client, newRefresh, now), ops), refresh, client', other) == Reused
  {
    var s1 := Refresh(s, refresh, client, newRefresh, now);
    StepKeepsLineages(s, DoRefresh(refresh, client, newRefresh), now);
    RedeemedIsSpent(s, refresh, client, newRefresh, now);
    RunKeepsLineages(s1, ops);
    SpentIsReused(Run(s1, ops), refresh, client', other);
  }

  lemma RedeemedIsSpent(s: State, refresh: string, client: Client, newRefresh: string, now: Time)
    requires Legal(s, DoRefresh(refresh, client, newRefresh), now) && Check(s, refresh, client, newRefresh).Rotated?
    ensures Spent(Refresh(s, refresh, client, newRefresh, now), refresh)
  {
    var i := Find(s.tokens, refresh).value;
    assert Refresh(s, refresh, client, newRefresh, now).tokens[i] == Stamp(s.tokens[i], now);
  }

  lemma SpentIsReused(s: State, refresh: string, client: Client, other: string)
    requires Lineages(s) && Spent(s, refresh)
    ensures Check(s, refresh, client, other) == Reused
  {
    var k :| 0 <= k < |s.tokens| && s.tokens[k].refresh == refresh && !LiveRow(s.tokens[k]);
    assert Find(s.tokens, refresh) == Some(k);
  }

  /** A killed family is killed for good: after any further run, whatever string of it is presented
      counts as reuse. */
  lemma KilledForGood(s: State, family: Family, ops: seq<Timed>, i: nat, client: Client, other: string)
    requires Lineages(s) && Dead(s, family) && LegalRun(s, ops)
    requires i < |Run(s, ops).tokens| && Run(s, ops).tokens[i].family == family
    ensures Dead(Run(s, ops), family)
    ensures Check(Run(s, ops), Run(s, ops).tokens[i].refresh, client, other) == Reused
  {
    RunKeepsLineages(s, ops);
    DeadIsReused(Run(s, ops), family, i, client, other);
  }

  lemma DeadIsReused(s: State, family: Family, i: nat, client: Client, other: string)
    requires Lineages(s) && Dead(s, family) && i < |s.tokens| && s.tokens[i].family == family
    ensures Check(s, s.tokens[i].refresh, client, other) == Reused
  {
    assert Find(s.tokens, s.tokens[i].refresh) == Some(i);
  }

  // ----- disabling a user -----

  /** The resource server's test of an access token. */
  predicate Rejected(watermark: map<Grant, Time>, user: User, client: Client, iat: Time) {
    Grant(user, client) in watermark && watermark[Grant(user, client)] > iat
  }

  /** After the cascade the user has no live refresh token. An access token issued before it is
      rejected exactly when its client still had a live refresh token, or an earlier watermark already
      covered it: a client whose families reuse detection had all killed gets no watermark. */
  lemma DisableUser(s: State, user: User, now: Time, client: Client, iat: Time)
    requires Lineages(s) && iat < now
    ensures forall i :: 0 <= i < |s.tokens| && RevokeUser(s, user, now).tokens[i].user == user ==>
              !LiveRow(RevokeUser(s, user, now).tokens[i])
    ensures Rejected(RevokeUser(s, user, now).watermark, user, client, iat)
            <==> client in ActiveClients(s.tokens, user) || Rejected(s.watermark, user, client, iat)
  {
  }

  lemma RunOfFour(s: State, s1: State, s2: State, s3: State, ops: seq<Timed>)
    requires |ops| == 4
    requires Legal(s, ops[0].op, ops[0].now) && s1 == Apply(s, ops[0].op, ops[0].now)
    requires Legal(s1, ops[1].op, ops[1].now) && s2 == Apply(s1, ops[1].op, ops[1].now)
    requires Legal(s2, ops[2].op, ops[2].now) && s3 == Apply(s2, ops[2].op, ops[2].now)
    requires Legal(s3, ops[3].op, ops[3].now)
    ensures LegalRun(s, ops) && Run(s, ops) == Apply(s3, ops[3].op, ops[3].now)
  {
    var s4 := Apply(s3, ops[3].op, ops[3].now);
    assert ops[1..][1..][1..][1..] == [];
    assert LegalRun(s4, ops[1..][1..][1..][1..]) && Run(s4, ops[1..][1..][1..][1..]) == s4;
    assert ops[1..][1..][1..][0] == ops[3];
    assert LegalRun(s3, ops[1..][1..][1..]) && Run(s3, ops[1..][1..][1..]) == s4;
    assert ops[1..][1..][0] == ops[2];
    assert LegalRun(s2, ops[1..][1..]) && Run(s2, ops[1..][1..]) == s4;
    assert LegalRun(s1, ops[1..]) && Run(s1, ops[1..]) == s4;
  }

  /** A user's only session: a code redeemed at 1, refreshed at 2, the first string replayed at 3, and the
      account disabled at 4. */
  function DisabledTooLate(code: string, client: Client, user: User, a: string, b: string, c: string): seq<Timed> {
    [Timed(DoExchange(code, client, a, 0, true), 1), Timed(DoRefresh(a, client, b), 2),
     Timed(DoRefresh(a, client, c), 3), Timed(DoRevokeUser(user), 4)]
  }

  /** The run that fails: reuse detection has revoked every refresh token before the account is disabled,
      so no watermark is written, and the access tokens issued at 1 and 2 are not rejected. */
  lemma DisabledUserKeepsAccess(code: string, client: Client, user: User, a: string, b: string, c: string)
    requires a != b && a != c && b != c
    ensures var s, ops := State([], map[code := Code(client, user, 1)], map[]),
              DisabledTooLate(code, client, user, a, b, c);
            && Lineages(s) && LegalRun(s, ops)
            && |Run(s, ops).tokens| == 2 && Run(s, ops).tokens[1].user == user && Run(s, ops).tokens[1].client == client
            && forall iat :: !Rejected(Run(s, ops).watermark, user, client, iat)
  {
    var s, ops := State([], map[code := Code(client, user, 1)], map[]), DisabledTooLate(code, client, user, a, b, c);
    var s1 := Apply(s, ops[0].op, 1);
    assert s1.tokens == [Token(client, user, 0, a, 0, 0)];
    var s2 := OnlyRefresh(s1, client, user, a, b);
    var s3 := OnlyReplay(s2, client, user, a, b, c);
    RunOfFour(s, s1, s2, s3, ops);
  }

  lemma OnlyRefresh(s1: State, client: Client, user: User, a: string, b: string) returns (s2: State)
    requires s1.tokens == [Token(client, user, 0, a, 0, 0)]
    ensures s2 == Apply(s1, DoRefresh(a, client, b), 2) && s2.watermark == s1.watermark
    ensures s2.tokens == [Token(client, user, 0, a, 2, 2), Token(client, user, 0, b, 0, 0)]
  {
    assert Find(s1.tokens, a) == Some(0);
    s2 := Apply(s1, DoRefresh(a, client, b), 2);
  }

  lemma OnlyReplay(s2: State, client: Client, user: User, a: string, b: string, c: string) returns (s3: State)
    requires a != b && s2.tokens == [Token(client, user, 0, a, 2, 2), Token(client, user, 0, b, 0, 0)]
    ensures s3 == Apply(s2, DoRefresh(a, client, c), 3) && s3.watermark == s2.watermark
    ensures s3.tokens == [Token(client, user, 0, a, 3, 3), Token(client, user, 0, b, 3, 3)]
    ensures ActiveClients(s3.tokens, user) == {}
  {
    assert Find(s2.tokens[..1], a) == Some(0);
    s3 := Apply(s2, DoRefresh(a, client, c), 3);
  }

  // ----- one family, one client at a time -----

  lemma RevokeNone(tokens: seq<Token>, now: Time)
    ensures RevokeFamilies(tokens, {}, now) == tokens
  {
  }

  lemma RevokeTwice(tokens: seq<Token>, a: set<Family>, b: set<Family>, now: Time)
    ensures RevokeFamilies(RevokeFamilies(tokens, a, now), b, now) == RevokeFamilies(tokens, a + b, now)
  {
  }

  /** Disconnecting one more client adds its families and its watermark. */
  lemma OneMoreClient(s: State, user: User, done: set<Client>, c: Client, now: Time, t: State)
    requires FamiliesOf(s.tokens, user, {c}) != {}
    requires t.tokens == RevokeFamilies(s.tokens, FamiliesOf(s.tokens, user, done), now)
    requires t.watermark == Watermarked(s.watermark, user, done, now)
    ensures RevokeClient(t, user, c, now).tokens ==
              RevokeFamilies(s.tokens, FamiliesOf(s.tokens, user, done + {c}), now)
    ensures RevokeClient(t, user, c, now).watermark == Watermarked(s.watermark, user, done + {c}, now)
  {
    SameFamilies(s.tokens, t.tokens, user, {c});
    OneMoreWatermark(s.watermark, user, done, c, now);
    assert FamiliesOf(s.tokens, user, done + {c}) == FamiliesOf(s.tokens, user, done) + FamiliesOf(s.tokens, user, {c});
    RevokeTwice(s.tokens, FamiliesOf(s.tokens, user, done), FamiliesOf(s.tokens, user, {c}), now);
  }

  lemma OneMoreWatermark(watermark: map<Grant, Time>, user: User, done: set<Client>, c: Client, now: Time)
    ensures Watermarked(watermark, user, done, now)[Grant(user, c) := now] ==
              Watermarked(watermark, user, done + {c}, now)
  {
  }

  lemma SameFamilies(a: seq<Token>, b: seq<Token>, user: User, clients: set<Client>)
    requires |a| == |b|
    requires forall i :: 0 <= i < |a| ==>
               a[i].user == b[i].user && a[i].client == b[i].client && a[i].family == b[i].family
    ensures FamiliesOf(a, user, clients) == FamiliesOf(b, user, clients)
  {
  }

  lemma ActiveHasFamily(tokens: seq<Token>, user: User, c: Client)
    requires c in ActiveClients(tokens, user)
    ensures FamiliesOf(tokens, user, {c}) != {}
  {
    var i :| 0 <= i < |tokens| && tokens[i].user == user && tokens[i].refreshRevokedAt == 0 && tokens[i].client == c;
    assert tokens[i].family in FamiliesOf(tokens, user, {c});
  }

  // ----- the services -----

  class Store {
    var tokens: seq<Token>
    var codes: map<string, Code>
    var watermark: map<Grant, Time>

    ghost function Now(): State
      reads this
    {
      State(tokens, codes, watermark)
    }

    constructor ()
      ensures Now() == State([], map[], map[])
    {
      tokens, codes, watermark := [], map[], map[];
    }

    /** query_authorization_code, the code-challenge check, save_token with a new family,
        delete_authorization_code */
    method ExchangeCode(code: string, client: Client, refresh: string, family: Family, verified: bool, now: Time)
      returns (issued: Option<Token>)
      modifies this
      ensures Now() == Exchange(old(Now()), code, client, refresh, family, verified, now)
      ensures issued.Some? <==> Redeemable(old(codes), code, client, now) && verified
      ensures issued.Some? ==> issued.value in tokens && issued.value.user == old(codes)[code].user && code !in codes
      ensures issued.None? ==> Now() == old(Now())
    {
      if code !in codes || codes[code].client != client { return None; }
      if codes[code].issuedAt + CODE_TTL < now { return None; }
      if !verified { return None; }
      var t := Token(client, codes[code].user, family, refresh, 0, 0);
      tokens := tokens + [t];
      codes := codes - {code};
      return Some(t);
    }

    /** authenticate_refresh_token, check_client, save_token, revoke_old_credential */
    method RefreshToken(refresh: string, client: Client, newRefresh: string, now: Time) returns (r: Outcome)
      modifies this
      ensures r == Check(old(Now()), refresh, client, newRefresh)
      ensures Now() == Refresh(old(Now()), refresh, client, newRefresh, now)
    {
      var i := Find(tokens, refresh);
      if i.None? { return Unknown; }
      var t := tokens[i.value];
      if t.refreshRevokedAt != 0 {
        RevokeRefreshFamily(t.family, now);
        return Reused;
      }
      if t.client != client { return WrongClient; }
      var issued := Token(client, t.user, t.family, newRefresh, 0, 0);
      tokens := tokens + [issued];
      tokens := tokens[i.value := Stamp(t, now)];
      assert tokens == old(tokens)[i.value := Stamp(t, now)] + [issued];
      return Rotated(issued);
    }

    method RevokeRefreshFamily(family: Family, now: Time)
      modifies `tokens
      ensures tokens == RevokeFamilies(old(tokens), {family}, now)
    {
      tokens := RevokeFamilies(tokens, {family}, now);
    }

    /** revoke_client: one update per family, then the watermark. */
    method DisconnectClient(user: User, client: Client, now: Time)
      modifies `tokens, `watermark
      ensures Now() == RevokeClient(old(Now()), user, client, now)
    {
      var families := FamiliesOf(tokens, user, {client});
      if families == {} { return; }
      var rest := families;
      RevokeNone(tokens, now);
      while rest != {}
        invariant rest <= families && watermark == old(watermark)
        invariant tokens == RevokeFamilies(old(tokens), families - rest, now)
        decreases rest
      {
        var f :| f in rest;
        RevokeTwice(old(tokens), families - rest, {f}, now);
        rest := rest - {f};
        RevokeRefreshFamily(f, now);
        assert families - rest == families - (rest + {f}) + {f};
      }
      assert families - rest == families;
      watermark := watermark[Grant(user, client) := now];
    }

    /** revoke_user_clients: every client with a live refresh token, one after the other. */
    method DisableUserClients(user: User, now: Time) returns (revoked: nat)
      requires now > 0
      modifies `tokens, `watermark
      ensures Now() == RevokeUser(old(Now()), user, now)
      ensures revoked == |ActiveClients(old(tokens), user)|
    {
      var clients := ActiveClients(tokens, user);
      var rest := clients;
      ghost var start := Now();
      ghost var done: set<Client> := {};
      RevokeNone(tokens, now);
      assert FamiliesOf(tokens, user, done) == {};
      assert Watermarked(watermark, user, done, now) == watermark;
      while rest != {}
        invariant rest <= clients && done == clients - rest
        invariant tokens == RevokeFamilies(start.tokens, FamiliesOf(start.tokens, user, done), now)
        invariant watermark == Watermarked(start.watermark, user, done, now)
        decreases rest
      {
        var c :| c in rest;
        ActiveHasFamily(start.tokens, user, c);
        OneMoreClient(start, user, done, c, now, Now());
        DisconnectClient(user, c, now);
        rest := rest - {c};
        done := done + {c};
      }
      assert done == clients;
      return |clients|;
    }
  }
}
