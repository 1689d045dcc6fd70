/**
 What a retry is told: the recorded result until it expires, that the call is still running while its lease
 is kept up, that its outcome is in doubt for ever after, and that the key is free when it was given up.
 */
module LedgerAnswers {
  import opened Prelude
  import opened Ledger
  import opened AtMostOnce

  // -------------------------------------------------- single transactions

  /** The row counts: a recorded result is forgotten when its time is over. */
  predicate Stands(rows: Rows, slot: Slot, now: real) {
    slot in rows && (rows[slot].state.Done? ==> now < rows[slot].expiresAt)
  }

  /** Somebody's call is executing, and its lease is not over. */
  predicate Runs(row: Row, now: real) {
    row.state.Executing? && row.leaseUntil.Some? && now < row.leaseUntil.value
  }

  /** An executing row that the claim takes over: the call may be retried, and the row is another host's or lapsed. */
  predicate TakenOver(row: Row, o: Owner, f: string, retry: bool, now: real) {
    row.fingerprint == f && row.state.Executing? && retry && (row.owner != o.id || !Runs(row, now))
  }

  lemma AnswersAreExact(rows: Rows, o: Owner, slot: Slot, f: string, retry: bool, now: real)
    ensures var answer := Claim(rows, o, slot, f, retry, now).0;
      if !Stands(rows, slot, now) then answer.New?
      else
        var row := rows[slot];
        && (answer.New? <==> TakenOver(row, o, f, retry, now))
        && (answer.Conflict? <==> row.fingerprint != f)
        && (answer.Replay? <==> row.fingerprint == f && row.state.Done? && row.result.Some?)
        && (answer.Replay? ==> Some(answer.result) == row.result)
        && (answer.InFlight? <==> row.fingerprint == f && Runs(row, now) && !(retry && row.owner != o.id))
  {
  }

  /** A new claim has the key for its host from now on; every other answer leaves the rows that count alone. */
  lemma ClaimWritesItsRow(rows: Rows, o: Owner, slot: Slot, f: string, retry: bool, now: real)
    ensures var (answer, t) := Claim(rows, o, slot, f, retry, now);
      && (answer.New? ==>
            && slot in t && t[slot].fingerprint == f && t[slot].state.Executing? && t[slot].owner == o.id
            && t[slot].leaseUntil == Some(now + o.lease) && t[slot].expiresAt == now + o.ttl && t[slot].updated == now
            && t[slot].created == (if Stands(rows, slot, now) then rows[slot].created else now)
            && t[slot].result == (if Stands(rows, slot, now) then rows[slot].result else None))
      && (!answer.New? && !answer.Replay? ==> t == rows)
      && (forall k :: k in t && (k != slot || !answer.New?) ==> k in rows && t[k] == rows[k])
      && (forall k :: Stands(rows, k, now) ==> k in t)
  {
  }

  /** Only the host whose call is executing moves the row, and each operation moves this much of it. */
  lemma OwnersMoveTheirRow(rows: Rows, o: Owner, slot: Slot, result: string, now: real)
    ensures var owned := slot in rows && rows[slot].state.Executing? && rows[slot].owner == o.id;
      && (!owned ==> Renew(rows, o, slot, now) == Complete(rows, o, slot, result, now)
                     == Abandon(rows, o, slot) == Mark(rows, o, slot, now) == rows)
      && (owned ==>
            var row := rows[slot];
            && Renew(rows, o, slot, now) == rows[slot := row.(leaseUntil := Some(now + o.lease), updated := now)]
            && Mark(rows, o, slot, now)
               == rows[slot := row.(state := Indeterminate, updated := now, leaseUntil := None)]
            && slot !in Abandon(rows, o, slot) && Abandon(rows, o, slot)[slot := row] == rows
            && Complete(rows, o, slot, result, now)
               == rows[slot :=
                    Row(row.fingerprint, Done, row.owner, Some(result), row.created, now, None, now + o.ttl)])
  {
  }

  /** How a call's row ends, by what happened, and whether the machine stays leased. */
  lemma OutcomesAreExact(ending: Ending, drains: bool, external: bool, safe: bool)
    ensures var abandonedWait := !drains && (ending.TimedOut? || ending.Interrupted?);
      var failedOutside := external && (ending.ToolRefused? || ending.Crashed?);
      && (Settled(ending, drains, external, safe).Surrender? <==> safe && abandonedWait)
      && (Settled(ending, drains, external, safe).Blur? <==> !safe && (abandonedWait || failedOutside))
      && (LeaseKept(ending, drains, external, safe) <==> !safe && (abandonedWait || failedOutside))
  {
  }

  predicate OwnsRow(s: State, c: Call) {
    && c.slot in s.rows && s.rows[c.slot].state.Executing?
    && s.rows[c.slot].owner == c.owner.id && s.rows[c.slot].fingerprint == c.fingerprint
  }

  /** What the end of a call leaves of the row that is still its own, and that a dispatch touches no row. */
  lemma CallsEndTheirRow(s: State, e: Event, safe: set<string>)
    requires Enabled(s, e) && (e.Refuse? || e.Settle?)
    requires OwnsRow(s, s.calls[e.id])
    ensures var c := s.calls[e.id]; var t := Step(s, e, safe);
      && t.calls == s.calls - {e.id} && t.log == s.log && t.clock == s.clock
      && (e.Refuse? ==> c.slot !in t.rows)
      && (e.Settle? ==>
            var abandonedWait := !e.drains && (e.ending.TimedOut? || e.ending.Interrupted?);
            var failedOutside := e.external && (e.ending.ToolRefused? || e.ending.Crashed?);
            if c.fingerprint in safe && abandonedWait then c.slot !in t.rows
            else if c.fingerprint !in safe && (abandonedWait || failedOutside) then
              c.slot in t.rows && t.rows[c.slot].state.Indeterminate? && t.rows[c.slot].fingerprint == c.fingerprint
            else Recorded(t.rows, c.slot, c.fingerprint, e.result, s.clock + c.owner.ttl))
  {
    var c := s.calls[e.id];
    if e.Settle? {
      OutcomesAreExact(e.ending, e.drains, e.external, c.fingerprint in safe);
      OwnersMoveTheirRow(s.rows, c.owner, c.slot, e.result, s.clock);
      hide Settled, Complete, Abandon, Mark;
    }
  }

  /** A claimed call is dispatched once it starts; that and the passing of time leave the rows alone. */
  lemma DispatchIsLogged(s: State, e: Event, safe: set<string>)
    requires Enabled(s, e) && (e.Start? || e.Tick? || e.Vanish?)
    ensures var t := Step(s, e, safe); t.rows == s.rows && t.delivered == s.delivered
    ensures e.Start? ==>
              var c := s.calls[e.id]; var t := Step(s, e, safe);
              && t.log == s.log + [Dispatch(c.slot, c.fingerprint, c.owner, s.clock)]
              && t.calls == s.calls[e.id := Call(c.owner, c.slot, c.fingerprint, Dispatched)]
    ensures e.Tick? ==> Step(s, e, safe) == s.(clock := s.clock + e.delta)
    ensures e.Vanish? ==> Step(s, e, safe) == s.(calls := s.calls - {e.id})
  {
  }

  /** A call is under way exactly when its claim was answered as new. */
  lemma AdmissionIsExact(s: State, e: Event, safe: set<string>)
    requires Enabled(s, e) && e.Admit?
    ensures var (answer, rows) := Claim(s.rows, e.owner, e.slot, e.fingerprint, e.fingerprint in safe, s.clock);
      Step(s, e, safe) == s.(rows := rows, calls := if answer == New
        then s.calls[e.id := Call(e.owner, e.slot, e.fingerprint, Claimed)] else s.calls)
  {
    hide Claim;
  }

  // ------------------------------------------------------ over whole runs

  predicate Recorded(rows: Rows, slot: Slot, f: string, result: string, until: real) {
    && slot in rows && rows[slot].fingerprint == f && rows[slot].state.Done? && rows[slot].result == Some(result)
    && rows[slot].expiresAt == until
  }

  lemma ClockAdvances(s: State, e: Event, safe: set<string>)
    requires Enabled(s, e)
    ensures Step(s, e, safe).clock >= s.clock
  {
    hide Claim, Settled;
  }

  lemma {:induction false} ClockOnlyAdvances(s: State, es: seq<Event>, safe: set<string>)
    requires Legal(s, es, safe)
    ensures Run(s, es, safe).clock >= s.clock
    decreases |es|
  {
    hide Step, Enabled;
    if es != [] {
      ClockAdvances(s, es[0], safe);
      ClockOnlyAdvances(Step(s, es[0], safe), es[1..], safe);
    }
  }

  /** A claim leaves a standing result alone; the other operations need an executing row. */
  lemma StepKeepsRecord(s: State, e: Event, safe: set<string>, slot: Slot, f: string, result: string, until: real)
    requires Enabled(s, e) && Recorded(s.rows, slot, f, result, until) && s.clock < until
    ensures Recorded(Step(s, e, safe).rows, slot, f, result, until)
  {
    if e.Admit? {
      AnswersAreExact(s.rows, e.owner, e.slot, e.fingerprint, e.fingerprint in safe, s.clock);
      ClaimWritesItsRow(s.rows, e.owner, e.slot, e.fingerprint, e.fingerprint in safe, s.clock);
      assert Stands(s.rows, slot, s.clock);
    }
    hide Claim, Settled;
  }

  /** Until it expires, a recorded result is replayed to every host that asks for the same, and to nobody else. */
  lemma {:induction false} RecordedIsReplayed(s: State, es: seq<Event>, safe: set<string>, slot: Slot, f: string,
      result: string, until: real)
    requires Legal(s, es, safe) && Recorded(s.rows, slot, f, result, until) && Run(s, es, safe).clock < until
    ensures var t := Run(s, es, safe);
      && Recorded(t.rows, slot, f, result, until)
      && forall o, g, retry ::
           && Claim(t.rows, o, slot, g, retry, t.clock).0 == (if g == f then Replay(result) else Conflict)
           && Recorded(Claim(t.rows, o, slot, g, retry, t.clock).1, slot, f, result, until)
    decreases |es|
  {
    if es != [] {
      hide Step, Enabled, Recorded, Claim;
      ClockOnlyAdvances(s, es, safe);
      StepKeepsRecord(s, es[0], safe, slot, f, result, until);
      RecordedIsReplayed(Step(s, es[0], safe), es[1..], safe, slot, f, result, until);
    } else {
      forall o, g, retry
        ensures Claim(s.rows, o, slot, g, retry, s.clock).0 == (if g == f then Replay(result) else Conflict)
        ensures Recorded(Claim(s.rows, o, slot, g, retry, s.clock).1, slot, f, result, until)
      {
        AnswersAreExact(s.rows, o, slot, g, retry, s.clock);
        ClaimWritesItsRow(s.rows, o, slot, g, retry, s.clock);
        hide Claim;
      }
    }
  }

  /** From then on the key is free again, for anything. */
  lemma ExpiredIsForgotten(rows: Rows, slot: Slot, f: string, result: string, until: real, o: Owner, g: string,
      retry: bool, now: real)
    requires Recorded(rows, slot, f, result, until) && now >= until
    ensures Claim(rows, o, slot, g, retry, now).0.New?
  {
    AnswersAreExact(rows, o, slot, g, retry, now);
  }

  /**
   A mutation's call that ends with a result, however it ended, is replayed from then on to every retry by any
   host, restarted or not, for its host's result lifetime.
   */
  lemma CompletedIsReplayed(before: seq<Event>, e: Event, after: seq<Event>, slot: Slot, fingerprints: set<string>,
      safe: set<string>, o: Owner, retry: bool)
    requires Legal(Init, before, safe) && Uses(before, slot, fingerprints) && fingerprints !! safe
    requires e.Settle? && Enabled(Run(Init, before, safe), e) && Run(Init, before, safe).calls[e.id].slot == slot
    requires Settled(e.ending, e.drains, e.external, false).Record?
    requires Legal(Step(Run(Init, before, safe), e, safe), after, safe)
    requires Run(Step(Run(Init, before, safe), e, safe), after, safe).clock
             < Run(Init, before, safe).clock + Run(Init, before, safe).calls[e.id].owner.ttl
    ensures var t := Run(Step(Run(Init, before, safe), e, safe), after, safe);
      Claim(t.rows, o, slot, Run(Init, before, safe).calls[e.id].fingerprint, retry, t.clock).0 == Replay(e.result)
  {
    RunKeeps(Init, before, slot, fingerprints, safe);
    var s := Run(Init, before, safe);
    var c := s.calls[e.id];
    OwnersMoveTheirRow(s.rows, c.owner, slot, e.result, s.clock);
    var t := Step(s, e, safe);
    assert Recorded(t.rows, slot, c.fingerprint, e.result, s.clock + c.owner.ttl);
    hide Inv, Claim, Step, Settled;
    RecordedIsReplayed(t, after, safe, slot, c.fingerprint, e.result, s.clock + c.owner.ttl);
  }

  /** An outcome in doubt is never called anything else, to any host, at any later time. */
  lemma DoubtIsTold(s: State, es: seq<Event>, safe: set<string>, slot: Slot, o: Owner, f: string, retry: bool)
    requires Legal(s, es, safe) && slot in s.rows && s.rows[slot].state.Indeterminate?
    ensures var t := Run(s, es, safe);
      Claim(t.rows, o, slot, f, retry, t.clock)
      == (if f == s.rows[slot].fingerprint then Ambiguous else Conflict, t.rows)
  {
    IndeterminateIsFinal(s, es, slot, safe);
    var t := Run(s, es, safe);
    AnswersAreExact(t.rows, o, slot, f, retry, t.clock);
    ClaimWritesItsRow(t.rows, o, slot, f, retry, t.clock);
    hide Claim, Run, Legal;
  }

  /** A claim given up leaves the key free for the next. */
  lemma GivenUpIsFree(rows: Rows, o: Owner, slot: Slot, next: Owner, f: string, retry: bool, now: real)
    requires slot in rows && rows[slot].state.Executing? && rows[slot].owner == o.id
    ensures Claim(Abandon(rows, o, slot), next, slot, f, retry, now).0.New?
  {
    OwnersMoveTheirRow(rows, o, slot, "", now);
    AnswersAreExact(Abandon(rows, o, slot), next, slot, f, retry, now);
  }

  // ----------------------------------------------------- while it executes

  predicate ExecutingUntil(rows: Rows, slot: Slot, o: string, f: string, until: real) {
    && slot in rows && rows[slot].state.Executing? && rows[slot].owner == o && rows[slot].fingerprint == f
    && rows[slot].leaseUntil == Some(until)
  }

  predicate Renews(e: Event, slot: Slot, o: string) {
    e.Renewal? && e.slot == slot && e.owner.id == o
  }

  function EndAfter(s: State, e: Event, slot: Slot, o: string, until: real): real {
    if Renews(e, slot, o) then s.clock + e.owner.lease else until
  }

  /** The host's calls on the slot do not end meanwhile, and its lease is renewed before each end. */
  predicate KeptUp(s: State, es: seq<Event>, safe: set<string>, slot: Slot, o: string, until: real)
    requires Legal(s, es, safe)
    decreases |es|
  {
    s.clock < until
    && (es == []
        || (&& (es[0].Refuse? || es[0].Settle? ==>
                  !(s.calls[es[0].id].slot == slot && s.calls[es[0].id].owner.id == o))
            && KeptUp(Step(s, es[0], safe), es[1..], safe, slot, o, EndAfter(s, es[0], slot, o, until))))
  }

  function EndOf(s: State, es: seq<Event>, safe: set<string>, slot: Slot, o: string, until: real): real
    requires Legal(s, es, safe)
    decreases |es|
  {
    if es == [] then until
    else EndOf(Step(s, es[0], safe), es[1..], safe, slot, o, EndAfter(s, es[0], slot, o, until))
  }

  lemma StepKeepsExecuting(s: State, e: Event, safe: set<string>, slot: Slot, o: string, f: string, until: real)
    requires Enabled(s, e) && ExecutingUntil(s.rows, slot, o, f, until) && f !in safe
    requires e.Refuse? || e.Settle? ==> !(s.calls[e.id].slot == slot && s.calls[e.id].owner.id == o)
    ensures ExecutingUntil(Step(s, e, safe).rows, slot, o, f, EndAfter(s, e, slot, o, until))
  {
    match e
    case Admit(_, owner, k, g) =>
      AnswersAreExact(s.rows, owner, k, g, g in safe, s.clock);
      ClaimWritesItsRow(s.rows, owner, k, g, g in safe, s.clock);
      assert Stands(s.rows, slot, s.clock);
      hide Claim;
    case Renewal(owner, k) => OwnersMoveTheirRow(s.rows, owner, k, "", s.clock);
    case Refuse(id) => OwnersMoveTheirRow(s.rows, s.calls[id].owner, s.calls[id].slot, "", s.clock);
    case Settle(id, _, _, _, result) =>
      OwnersMoveTheirRow(s.rows, s.calls[id].owner, s.calls[id].slot, result, s.clock);
      hide Settled;
    case _ =>
  }

  /** A mutation whose lease is kept up is told to be in flight; once the lease has lapsed it is in doubt, never new. */
  lemma {:induction false} KeptUpIsInFlight(s: State, es: seq<Event>, safe: set<string>, slot: Slot, o: string,
      f: string, until: real, host: Owner, now: real)
    requires Legal(s, es, safe) && ExecutingUntil(s.rows, slot, o, f, until) && f !in safe
    requires KeptUp(s, es, safe, slot, o, until)
    ensures var t := Run(s, es, safe); var end := EndOf(s, es, safe, slot, o, until);
      && ExecutingUntil(t.rows, slot, o, f, end) && t.clock < end
      && Claim(t.rows, host, slot, f, false, now) == (if now < end then InFlight else Ambiguous, t.rows)
    decreases |es|
  {
    hide Step, Enabled, Claim;
    if es != [] {
      StepKeepsExecuting(s, es[0], safe, slot, o, f, until);
      KeptUpIsInFlight(Step(s, es[0], safe), es[1..], safe, slot, o, f, EndAfter(s, es[0], slot, o, until), host, now);
    } else {
      AnswersAreExact(s.rows, host, slot, f, false, now);
      ClaimWritesItsRow(s.rows, host, slot, f, false, now);
    }
  }
}
