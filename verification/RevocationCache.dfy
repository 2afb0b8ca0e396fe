/** The resource server's revocation check: a watermark table read through a per-token cache with a
    time to live. Verifications run interleaved, each split into clock reading, cache read, table query
    and cache write; watermarks are written in between. */
module RevocationCache {
  import opened Basics

  /** Monotonic clock readings, and wall-clock stamps of tokens and watermarks. */
  type Time = nat
  type Wall = int

  /** The cache key: subject, client and issue time of a token. */
  datatype Key = Key(sub: string, client: string, iat: Wall)

  datatype Owner = Owner(sub: string, client: string)

  datatype Entry = Entry(revoked: bool, expires: Time)

  // ----- the table -----

  /** revoked_after > issued_at on the row of the token's subject and client. */
  predicate TableRejects(table: map<Owner, Wall>, k: Key) {
    Owner(k.sub, k.client) in table && table[Owner(k.sub, k.client)] > k.iat
  }

  // ----- the verifier object -----

  class Verifier {
    const ttl: Time
    var cache: map<Key, Entry>

    constructor (ttl: Time)
      ensures this.ttl == ttl && cache == map[]
    {
      this.ttl := ttl;
      cache := map[];
    }

    /** The locked read: a fresh entry answers at once. */
    method Lookup(k: Key, now: Time) returns (r: Option<bool>)
      ensures r == Hit(cache, k, now)
    {
      if k in cache && cache[k].expires > now { return Some(cache[k].revoked); }
      return None;
    }

    /** The locked write; the expiry counts from the reading taken before the query. */
    method Remember(k: Key, revoked: bool, startedAt: Time)
      modifies this
      ensures cache == Stored(old(cache), k, revoked, startedAt, ttl)
    {
      cache := cache[k := Entry(revoked, startedAt + ttl)];
    }

    /** _revoked, uninterrupted: the four steps of the system below, and their answer. */
    method Revoked(k: Key, now: Time, table: map<Owner, Wall>) returns (revoked: bool)
      modifies this
      ensures var s, events := State(now, table, old(cache), map[], []),
                Uninterrupted(k, Hit(old(cache), k, now).Some?);
              && LegalRun(s, events, ttl)
              && Run(s, events, ttl) == State(now, table, cache, map[0 := Answered(k, now, revoked)], [])
    {
      ghost var s := State(now, table, cache, map[], []);
      var cached := Lookup(k, now);
      UninterruptedRun(s, k, ttl);
      if cached.Some? { return cached.value; }
      revoked := TableRejects(table, k);
      Remember(k, revoked, now);
    }
  }

  lemma UninterruptedRun(s: State, k: Key, ttl: Time)
    requires s.calls == map[]
    ensures var hit := Hit(s.cache, k, s.now);
            var events := Uninterrupted(k, hit.Some?);
            && LegalRun(s, events, ttl)
            && var answer := if hit.Some? then hit.value else TableRejects(s.table, k);
               Run(s, events, ttl) == s.(calls := map[0 := Answered(k, s.now, answer)],
                                         cache := if hit.Some? then s.cache else Stored(s.cache, k, answer, s.now, ttl))
  {
    var hit := Hit(s.cache, k, s.now);
    var events := Uninterrupted(k, hit.Some?);
    var s1 := Next(s, events[0], ttl);
    var s2 := Next(s1, events[1], ttl);
    assert events[1..][0] == Look(0);
    if hit.Some? {
      assert events[1..][1..] == [];
      assert Run(s1, events[1..], ttl) == s2;
    } else {
      assert events[1..][1..] == [Query(0), Write(0)];
      var s3 := Next(s2, Query(0), ttl);
      var s4 := Next(s3, Write(0), ttl);
      assert [Query(0), Write(0)][1..] == [Write(0)] && [Write(0)][1..] == [];
      assert LegalRun(s3, [Write(0)], ttl) && Run(s3, [Write(0)], ttl) == s4;
      assert LegalRun(s2, [Query(0), Write(0)], ttl) && Run(s2, [Query(0), Write(0)], ttl) == s4;
      assert LegalRun(s1, events[1..], ttl) && Run(s1, events[1..], ttl) == s4;
    }
  }

  /** The four steps of call 0 with nothing in between. */
  function Uninterrupted(k: Key, hit: bool): seq<Event> {
    [Begin(0, k), Look(0)] + if hit then [] else [Query(0), Write(0)]
  }

  function Hit(cache: map<Key, Entry>, k: Key, now: Time): Option<bool> {
    if k in cache && cache[k].expires > now then Some(cache[k].revoked) else None
  }

  function Stored(cache: map<Key, Entry>, k: Key, revoked: bool, startedAt: Time, ttl: Time): map<Key, Entry> {
    cache[k := Entry(revoked, startedAt + ttl)]
  }

  // ----- the interleaved system -----

  /** Where one verification stands. */
  datatype Phase =
    | Started(key: Key, startedAt: Time)
    | Queries(key: Key, startedAt: Time)
    | Writes(key: Key, startedAt: Time, found: bool)
    | Answered(key: Key, startedAt: Time, rejected: bool)

  /** A watermark write: whose, up to which issue time, and at which clock reading. */
  datatype Mark = Mark(owner: Owner, stamp: Wall, at: Time)

  /** The system: clock, table, cache, the verifications by number, and the watermarks written so far. */
  datatype State = State(now: Time, table: map<Owner, Wall>, cache: map<Key, Entry>, calls: map<nat, Phase>,
                         written: seq<Mark>)

  datatype Event =
    | Tick(to: Time)
    | Revoke(owner: Owner, stamp: Wall)
    | Begin(id: nat, key: Key)     // reads the clock
    | Look(id: nat)                // reads the cache under the lock
    | Query(id: nat)
    | Write(id: nat)

  /** Time and watermarks move forward; each verification takes its own four steps in order. */
  predicate Enabled(s: State, e: Event) {
    match e
    case Tick(to) => to >= s.now
    case Revoke(owner, stamp) => owner in s.table ==> stamp >= s.table[owner]
    case Begin(id, _) => id !in s.calls
    case Look(id) => id in s.calls && s.calls[id].Started?
    case Query(id) => id in s.calls && s.calls[id].Queries?
    case Write(id) => id in s.calls && s.calls[id].Writes?
  }

  function Next(s: State, e: Event, ttl: Time): State
    requires Enabled(s, e)
  {
    match e
    case Tick(to) => s.(now := to)
    case Revoke(owner, stamp) =>
      s.(table := s.table[owner := stamp], written := s.written + [Mark(owner, stamp, s.now)])
    case Begin(id, k) => s.(calls := s.calls[id := Started(k, s.now)])
    case Look(id) =>
      var c := s.calls[id];
      (match Hit(s.cache, c.key, c.startedAt)
       case Some(revoked) => s.(calls := s.calls[id := Answered(c.key, c.startedAt, revoked)])
       case None => s.(calls := s.calls[id := Queries(c.key, c.startedAt)]))
    case Query(id) =>
      var c := s.calls[id];
      s.(calls := s.calls[id := Writes(c.key, c.startedAt, TableRejects(s.table, c.key))])
    case Write(id) =>
      var c := s.calls[id];
      s.(cache := Stored(s.cache, c.key, c.found, c.startedAt, ttl),
         calls := s.calls[id := Answered(c.key, c.startedAt, c.found)])
  }

  ghost predicate LegalRun(s: State, events: seq<Event>, ttl: Time)
    decreases |events|
  {
    events == [] || (Enabled(s, events[0]) && LegalRun(Next(s, events[0], ttl), events[1..], ttl))
  }

  ghost function Run(s: State, events: seq<Event>, ttl: Time): State
    requires LegalRun(s, events, ttl)
    decreases |events|
  {
    if events == [] then s else Run(Next(s, events[0], ttl), events[1..], ttl)
  }

  const INITIAL: State := State(0, map[], map[], map[], [])

  // ----- the invariant -----

  /** The watermark concerns the token. */
  predicate Covers(m: Mark, k: Key) {
    m.owner == Owner(k.sub, k.client) && m.stamp > k.iat
  }

  /** What an answer found by a query begun at `at` is still worth: 'revoked' is true of the table, and
      'not revoked' was asked before any watermark covering the token was written. */
  ghost predicate Sound(s: State, k: Key, revoked: bool, at: Time) {
    && at <= s.now
    && if revoked then TableRejects(s.table, k)
       else forall i :: 0 <= i < |s.written| && Covers(s.written[i], k) ==> at <= s.written[i].at
  }

  ghost predicate EntrySound(s: State, k: Key, entry: Entry, ttl: Time) {
    exists at: Time :: entry.expires == at + ttl && Sound(s, k, entry.revoked, at)
  }

  ghost predicate CallSound(s: State, c: Phase, ttl: Time) {
    match c
    case Started(_, at) => at <= s.now
    case Queries(_, at) => at <= s.now
    case Writes(k, at, found) => Sound(s, k, found, at)
    case Answered(k, at, rejected) =>
      if rejected then TableRejects(s.table, k)
      else forall i :: 0 <= i < |s.written| && Covers(s.written[i], k) ==> at < s.written[i].at + ttl
  }

  /** Whatever the table holds was written as a watermark. */
  ghost predicate WrittenFor(s: State, owner: Owner, stamp: Wall) {
    exists i :: 0 <= i < |s.written| && s.written[i].owner == owner && s.written[i].stamp == stamp
  }

  lemma WrittenStays(s: State, e: Event, ttl: Time, owner: Owner, stamp: Wall)
    requires Enabled(s, e)
    requires WrittenFor(s, owner, stamp) || e == Revoke(owner, stamp)
    ensures WrittenFor(Next(s, e, ttl), owner, stamp)
  {
    var s' := Next(s, e, ttl);
    if i :| 0 <= i < |s.written| && s.written[i].owner == owner && s.written[i].stamp == stamp {
      assert s'.written[i] == s.written[i];
    } else {
      assert s'.written[|s.written|] == Mark(owner, stamp, s.now);
    }
  }

  ghost predicate Inv(s: State, ttl: Time) {
    && (forall k: Key :: k in s.cache ==> EntrySound(s, k, s.cache[k], ttl))
    && (forall id: nat :: id in s.calls ==> CallSound(s, s.calls[id], ttl))
    && (forall i :: 0 <= i < |s.written| ==>
          && s.written[i].at <= s.now
          && s.written[i].owner in s.table && s.table[s.written[i].owner] >= s.written[i].stamp)
    && (forall owner :: owner in s.table ==> WrittenFor(s, owner, s.table[owner]))
    && (forall id: nat :: id in s.calls ==> s.calls[id].startedAt <= s.now)
  }

  lemma SoundStays(s: State, e: Event, ttl: Time, k: Key, revoked: bool, at: Time)
    requires Enabled(s, e) && Sound(s, k, revoked, at)
    ensures Sound(Next(s, e, ttl), k, revoked, at)
  {
  }

  lemma EntryStays(s: State, e: Event, ttl: Time, k: Key, entry: Entry)
    requires Enabled(s, e) && EntrySound(s, k, entry, ttl)
    ensures EntrySound(Next(s, e, ttl), k, entry, ttl)
  {
    var at: Time :| entry.expires == at + ttl && Sound(s, k, entry.revoked, at);
    SoundStays(s, e, ttl, k, entry.revoked, at);
  }

  lemma CallStays(s: State, e: Event, ttl: Time, c: Phase)
    requires Enabled(s, e) && CallSound(s, c, ttl) && c.startedAt <= s.now && ttl > 0
    ensures CallSound(Next(s, e, ttl), c, ttl)
  {
  }

  lemma NewCallSound(s: State, e: Event, ttl: Time)
    requires Inv(s, ttl) && Enabled(s, e) && ttl > 0 && (e.Begin? || e.Look? || e.Query? || e.Write?)
    ensures CallSound(Next(s, e, ttl), Next(s, e, ttl).calls[e.id], ttl)
    ensures Next(s, e, ttl).calls[e.id].startedAt <= s.now
  {
  }

  lemma NewEntrySound(s: State, e: Event, ttl: Time)
    requires Inv(s, ttl) && Enabled(s, e) && e.Write?
    ensures var k := s.calls[e.id].key; EntrySound(Next(s, e, ttl), k, Next(s, e, ttl).cache[k], ttl)
  {
    var c := s.calls[e.id];
    assert CallSound(s, c, ttl);
    SoundStays(s, e, ttl, c.key, c.found, c.startedAt);
  }

  lemma StepKeepsInv(s: State, e: Event, ttl: Time)
    requires Inv(s, ttl) && Enabled(s, e) && ttl > 0
    ensures Inv(Next(s, e, ttl), ttl)
  {
    var s' := Next(s, e, ttl);
    forall k: Key | k in s'.cache
      ensures EntrySound(s', k, s'.cache[k], ttl)
    {
      if e.Write? && s.calls[e.id].key == k {
        NewEntrySound(s, e, ttl);
      } else {
        EntryStays(s, e, ttl, k, s.cache[k]);
      }
    }
    forall id: nat | id in s'.calls
      ensures CallSound(s', s'.calls[id], ttl) && s'.calls[id].startedAt <= s'.now
    {
      if (e.Begin? || e.Look? || e.Query? || e.Write?) && e.id == id {
        NewCallSound(s, e, ttl);
      } else {
        CallStays(s, e, ttl, s.calls[id]);
      }
    }
    forall owner | owner in s'.table
      ensures WrittenFor(s', owner, s'.table[owner])
    {
      WrittenStays(s, e, ttl, owner, s'.table[owner]);
    }
  }

  lemma {:induction false} RunKeepsInv(s: State, events: seq<Event>, ttl: Time)
    requires Inv(s, ttl) && LegalRun(s, events, ttl) && ttl > 0
    ensures Inv(Run(s, events, ttl), ttl)
    decreases |events|
  {
    if events == [] {
    } else {
      StepKeepsInv(s, events[0], ttl);
      RunKeepsInv(Next(s, events[0], ttl), events[1..], ttl);
    }
  }

  /** Main result: in every interleaving, a verification begun at least a time to live after the writing of a
      watermark rejects every token that watermark covers; and a token is only ever rejected, cached answer or
      not, when some watermark written for its own subject and client lies above its issue time. */
  lemma RevocationTakesEffect(events: seq<Event>, ttl: Time, id: nat, i: nat)
    requires ttl > 0 && LegalRun(INITIAL, events, ttl)
    requires id in Run(INITIAL, events, ttl).calls && Run(INITIAL, events, ttl).calls[id].Answered?
    ensures var s := Run(INITIAL, events, ttl);
            var c := s.calls[id];
            && (c.rejected ==> exists k :: 0 <= k < |s.written| && Covers(s.written[k], c.key))
            && (i < |s.written| && Covers(s.written[i], c.key) && c.startedAt >= s.written[i].at + ttl ==> c.rejected)
  {
    RunKeepsInv(INITIAL, events, ttl);
    var s := Run(INITIAL, events, ttl);
    var c := s.calls[id];
    assert CallSound(s, c, ttl);
    if c.rejected {
      assert WrittenFor(s, Owner(c.key.sub, c.key.client), s.table[Owner(c.key.sub, c.key.client)]);
    }
  }

  /** No watermark of the token's subject and client lies above its issue time. */
  ghost predicate NoOlderThan(written: seq<Mark>, k: Key) {
    forall i :: 0 <= i < |written| ==>
      written[i].owner.sub != k.sub || written[i].owner.client != k.client || written[i].stamp <= k.iat
  }

  /** So a client that reconnects after a revocation is let in: a token no older than any watermark written
      for its subject and client is never rejected. */
  lemma ReconnectedIsLetIn(events: seq<Event>, ttl: Time, id: nat)
    requires ttl > 0 && LegalRun(INITIAL, events, ttl)
    requires id in Run(INITIAL, events, ttl).calls && Run(INITIAL, events, ttl).calls[id].Answered?
    requires NoOlderThan(Run(INITIAL, events, ttl).written, Run(INITIAL, events, ttl).calls[id].key)
    ensures !Run(INITIAL, events, ttl).calls[id].rejected
  {
    RevocationTakesEffect(events, ttl, id, 0);
  }

  // ----- the cache is used -----

  /** For a time to live an answer is remembered: a verification that looks before it is over, counted from
      the clock reading of the one that asked, gives the same answer and asks nothing. */
  lemma RememberedForTtl(s: State, asked: nat, id: nat, ttl: Time)
    requires asked in s.calls && s.calls[asked].Writes? && id in s.calls && s.calls[id].Started? && id != asked
    requires s.calls[id].key == s.calls[asked].key
    ensures var s1 := Next(s, Write(asked), ttl);
            && Enabled(s1, Look(id))
            && Next(s1, Look(id), ttl).calls[id] ==
               if s.calls[id].startedAt < s.calls[asked].startedAt + ttl
               then Answered(s.calls[id].key, s.calls[id].startedAt, s.calls[asked].found)
               else Queries(s.calls[id].key, s.calls[id].startedAt)
  {
  }
}
