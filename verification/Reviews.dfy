/** Review resolution as interleaved steps: a row is claimed by one conditional update, the repair runs
    in its own transaction, and a failed repair reopens the row. At most one repair ever commits, and
    a row at rest is closed exactly when one did, unless a claim was lost on the way. */
module Reviews {
  /** proposed_corrections closes to 'applied', disambiguations to 'resolved'. */
  datatype RowStatus = Open | Closed | Rejected

  datatype Phase = Claimed | RollingBack | Finished(outcome: Outcome)

  datatype Outcome = Repaired | Settled | Dismissed | Failed | AlreadyHandled(status: RowStatus) | Crashed

  /** One review row and every call made on it. `dispatches` says whether closing the row runs a
      repair: always for a correction, only for a provisional binding among disambiguations. */
  datatype RowState = RowState(dispatches: bool, status: RowStatus, calls: map<nat, Phase>,
                               committed: nat, settled: nat, lost: nat)

  datatype Event =
    | Reject(id: nat)          // the one-statement dismissal
    | Claim(id: nat)           // the conditional update, committed on its own
    | Commit(id: nat)          // the repair's transaction commits
    | Fail(id: nat)            // the repair raises, its transaction is rolled back
    | Reopen(id: nat)          // the compensating update
    | ReopenFails(id: nat)     // which may itself raise; the error is swallowed
    | Crash(id: nat)           // the process dies with the call in flight

  predicate InFlight(p: Phase) {
    p.Claimed? || p.RollingBack?
  }

  predicate Enabled(s: RowState, e: Event) {
    match e
    case Reject(id) => id !in s.calls && s.dispatches
    case Claim(id) => id !in s.calls
    case Commit(id) => id in s.calls && s.calls[id].Claimed?
    case Fail(id) => id in s.calls && s.calls[id].Claimed?
    case Reopen(id) => id in s.calls && s.calls[id].RollingBack?
    case ReopenFails(id) => id in s.calls && s.calls[id].RollingBack?
    case Crash(id) => id in s.calls && InFlight(s.calls[id])
  }

  function Next(s: RowState, e: Event): RowState
    requires Enabled(s, e)
  {
    match e
    case Reject(id) =>
      if s.status == Open then s.(status := Rejected, calls := s.calls[id := Finished(Dismissed)])
      else s.(calls := s.calls[id := Finished(AlreadyHandled(s.status))])
    case Claim(id) =>
      if s.status != Open then s.(calls := s.calls[id := Finished(AlreadyHandled(s.status))])
      else if s.dispatches then s.(status := Closed, calls := s.calls[id := Claimed])
      else s.(status := Closed, calls := s.calls[id := Finished(Settled)], settled := s.settled + 1)
    case Commit(id) => s.(calls := s.calls[id := Finished(Repaired)], committed := s.committed + 1)
    case Fail(id) => s.(calls := s.calls[id := RollingBack])
    case Reopen(id) =>
      s.(status := if s.status == Closed then Open else s.status, calls := s.calls[id := Finished(Failed)])
    case ReopenFails(id) => s.(calls := s.calls[id := Finished(Failed)], lost := s.lost + 1)
    case Crash(id) => s.(calls := s.calls[id := Finished(Crashed)], lost := s.lost + 1)
  }

  ghost predicate LegalRun(s: RowState, events: seq<Event>)
    decreases |events|
  {
    events == [] || (Enabled(s, events[0]) && LegalRun(Next(s, events[0]), events[1..]))
  }

  ghost function Run(s: RowState, events: seq<Event>): RowState
    requires LegalRun(s, events)
    decreases |events|
  {
    if events == [] then s else Run(Next(s, events[0]), events[1..])
  }

  function Initial(dispatches: bool): RowState {
    RowState(dispatches, Open, map[], 0, 0, 0)
  }

  function Holders(s: RowState): set<nat> {
    set id | id in s.calls && InFlight(s.calls[id])
  }

  /** The row is closed on behalf of exactly one call: one in flight, one that repaired or settled it,
      or one that was lost. */
  ghost predicate OneHolder(s: RowState) {
    |Holders(s)| + s.committed + s.settled + s.lost == if s.status == Closed then 1 else 0
  }

  lemma StepKeepsOneHolder(s: RowState, e: Event)
    requires Enabled(s, e) && OneHolder(s)
    ensures OneHolder(Next(s, e))
  {
    var s' := Next(s, e);
    if e.Claim? && s.status == Open && s.dispatches {
      assert Holders(s') == Holders(s) + {e.id};
    } else if e.Commit? || e.Reopen? || e.ReopenFails? || e.Crash? {
      assert e.id in Holders(s);
      assert Holders(s') == Holders(s) - {e.id};
      assert |Holders(s)| >= 1;
    } else {
      assert Holders(s') == Holders(s);
    }
  }

  lemma {:induction false} RunKeepsOneHolder(s: RowState, events: seq<Event>)
    requires LegalRun(s, events) && OneHolder(s)
    ensures OneHolder(Run(s, events))
    decreases |events|
  {
    if events == [] {
    } else {
      StepKeepsOneHolder(s, events[0]);
      RunKeepsOneHolder(Next(s, events[0]), events[1..]);
    }
  }

  /** What the row and the calls see of each event: a dismissal or a claim takes effect on an open row only and
      is told otherwise what it found; a repair, a failure and a crash leave the row as it stands; a reopening
      opens what is still closed; and nobody else's call is touched. */
  lemma EventsDo(s: RowState, e: Event, other: nat)
    requires Enabled(s, e)
    ensures var s' := Next(s, e);
            && s'.dispatches == s.dispatches
            && (other != e.id ==> (other in s'.calls <==> other in s.calls))
            && (other != e.id && other in s.calls ==> s'.calls[other] == s.calls[other])
            && e.id in s'.calls
            && ((e.Reject? || e.Claim?) && s.status != Open ==>
                  s'.status == s.status && s'.calls[e.id] == Finished(AlreadyHandled(s.status)))
            && (e.Reject? && s.status == Open ==> s'.status == Rejected && s'.calls[e.id] == Finished(Dismissed))
            && (e.Claim? && s.status == Open ==>
                  s'.status == Closed && s'.calls[e.id] == if s.dispatches then Claimed else Finished(Settled))
            && ((e.Commit? || e.Fail? || e.ReopenFails? || e.Crash?) ==> s'.status == s.status)
            && (e.Commit? ==> s'.calls[e.id] == Finished(Repaired))
            && (e.Fail? ==> s'.calls[e.id] == RollingBack)
            && (e.Crash? ==> s'.calls[e.id] == Finished(Crashed))
            && ((e.Reopen? || e.ReopenFails?) ==> s'.calls[e.id] == Finished(Failed))
            && (e.Reopen? ==> s'.status == if s.status == Closed then Open else s.status)
  {
  }

  /** Over every run a rejected row stays rejected, and it is rejected exactly when some call was told that it
      dismissed it. */
  ghost predicate SomeoneDismissed(s: RowState) {
    exists id :: id in s.calls && s.calls[id] == Finished(Dismissed)
  }

  lemma {:induction false} RejectedIffDismissed(s: RowState, events: seq<Event>)
    requires LegalRun(s, events) && (s.status == Rejected <==> SomeoneDismissed(s))
    ensures Run(s, events).status == Rejected <==> SomeoneDismissed(Run(s, events))
    decreases |events|
  {
    if events == [] {
    } else {
      DismissedStep(s, events[0]);
      RejectedIffDismissed(Next(s, events[0]), events[1..]);
    }
  }

  lemma DismissedStep(s: RowState, e: Event)
    requires Enabled(s, e) && (s.status == Rejected <==> SomeoneDismissed(s))
    ensures Next(s, e).status == Rejected <==> SomeoneDismissed(Next(s, e))
  {
    var s' := Next(s, e);
    if id :| id in s.calls && s.calls[id] == Finished(Dismissed) {
      assert id != e.id && s'.calls[id] == Finished(Dismissed);
    }
    if e.Reject? && s.status == Open {
      assert s'.calls[e.id] == Finished(Dismissed);
    }
    if id :| id in s'.calls && s'.calls[id] == Finished(Dismissed) {
      assert id == e.id || s.calls[id] == Finished(Dismissed);
    }
  }

  predicate Careful(e: Event) {
    !e.Crash? && !e.ReopenFails?
  }

  lemma {:induction false} CarefulLosesNothing(s: RowState, events: seq<Event>)
    requires LegalRun(s, events) && forall i :: 0 <= i < |events| ==> Careful(events[i])
    ensures Run(s, events).lost == s.lost && Run(s, events).dispatches == s.dispatches
    ensures s.dispatches ==> Run(s, events).settled == s.settled
    decreases |events|
  {
    if events == [] {
    } else {
      assert Careful(events[0]);
      assert forall i :: 0 <= i < |events[1..]| ==> events[1..][i] == events[i + 1];
      CarefulLosesNothing(Next(s, events[0]), events[1..]);
    }
  }

  /** Main result: however many calls interleave, and whatever crashes, at most one repair commits; at
      rest the row is closed exactly when one repair committed, one plain answer settled it, or one
      claim was lost to a crash or a failed reopening. */
  lemma AtMostOneRepair(dispatches: bool, events: seq<Event>)
    requires LegalRun(Initial(dispatches), events)
    ensures var s := Run(Initial(dispatches), events);
            && s.committed <= 1
            && (Holders(s) == {} ==> (s.status == Closed <==> s.committed + s.settled + s.lost == 1))
  {
    assert Holders(Initial(dispatches)) == {};
    RunKeepsOneHolder(Initial(dispatches), events);
  }

  /** Without crashes and failed reopenings: at rest a correction is applied exactly when one repair
      committed. */
  lemma AppliedIffRepaired(events: seq<Event>)
    requires LegalRun(Initial(true), events) && forall i :: 0 <= i < |events| ==> Careful(events[i])
    requires Holders(Run(Initial(true), events)) == {}
    ensures Run(Initial(true), events).status == Closed <==> Run(Initial(true), events).committed == 1
  {
    AtMostOneRepair(true, events);
    CarefulLosesNothing(Initial(true), events);
  }

  // ----- one call on its own -----

  /** The row itself, and the history of the calls made on it. */
  class Row {
    var status: RowStatus
    ghost var history: RowState

    ghost predicate Valid()
      reads this
    {
      history.status == status
    }

    constructor (ghost dispatches: bool)
      ensures Valid() && history == Initial(dispatches)
    {
      status, history := Open, Initial(dispatches);
    }

    /** update ... where status = 'pending' returning: the claim of call `id`, or its dismissal. */
    method TryClose(ghost id: nat, to: RowStatus) returns (closed: bool)
      requires Valid() && id !in history.calls && history.dispatches && (to == Closed || to == Rejected)
      modifies this
      ensures Valid() && history == Next(old(history), if to == Closed then Claim(id) else Reject(id))
      ensures closed <==>
              id in history.calls && history.calls[id] == if to == Closed then Claimed else Finished(Dismissed)
    {
      history := Next(history, if to == Closed then Claim(id) else Reject(id));
      if status != Open { return false; }
      status := to;
      return true;
    }

    /** resolve_correction, nothing else interleaved; `repaired` and `reopened` are how the dispatched
        repair and, after a failed one, the compensating update go. The call is a legal run of the
        machine above that ends with it finished the way it reports. */
    method Resolve(ghost id: nat, apply: bool, repaired: bool, reopened: bool)
      returns (outcome: Outcome, ghost events: seq<Event>)
      requires Valid() && id !in history.calls && history.dispatches
      modifies this
      ensures Valid() && LegalRun(old(history), events) && history == Run(old(history), events)
      ensures id in history.calls && history.calls[id] == Finished(outcome)
      ensures old(status) != Open ==> outcome == AlreadyHandled(old(status)) && status == old(status)
      ensures old(status) == Open && !apply ==> outcome == Dismissed && status == Rejected
      ensures old(status) == Open && apply && repaired ==> outcome == Repaired && status == Closed
      ensures old(status) == Open && apply && !repaired ==>
                outcome == Failed && status == if reopened then Open else Closed
    {
      var closed := TryClose(id, if apply then Closed else Rejected);
      events := [if apply then Claim(id) else Reject(id)];
      assert Run(old(history), events) == history;
      if !closed { return AlreadyHandled(status), events; }
      if !apply { return Dismissed, events; }
      if repaired {
        OneMore(old(history), events, Commit(id));
        events, history := events + [Commit(id)], Next(history, Commit(id));
        return Repaired, events;
      }
      OneMore(old(history), events, Fail(id));
      events, history := events + [Fail(id)], Next(history, Fail(id));
      if reopened {
        OneMore(old(history), events, Reopen(id));
        events, history := events + [Reopen(id)], Next(history, Reopen(id));
        if status == Closed { status := Open; }
      } else {
        OneMore(old(history), events, ReopenFails(id));
        events, history := events + [ReopenFails(id)], Next(history, ReopenFails(id));
      }
      return Failed, events;
    }
  }

  lemma {:induction false} OneMore(s: RowState, events: seq<Event>, e: Event)
    requires LegalRun(s, events) && Enabled(Run(s, events), e)
    ensures LegalRun(s, events + [e]) && Run(s, events + [e]) == Next(Run(s, events), e)
    decreases |events|
  {
    if events == [] {
      assert (events + [e])[1..] == [];
    } else {
      OneMore(Next(s, events[0]), events[1..], e);
      assert (events + [e])[1..] == events[1..] + [e];
    }
  }
}
