/**
 Until when the machine is taken, read off the two tables alone: entering and renewing put the end off,
 leaving and releasing bring it forward, and nothing else moves it.
 */
module LeaseDeadlines {
  import opened Prelude
  import opened MutatingLease

  /**
   At this time the call has the machine: the lease is its principal's and not over, and the call is the one
   listed.
   */
  predicate Occupies(t: Tables, principal: string, id: string, at: real) {
    && t.lease.Some? && t.lease.value.holder == principal && at < t.lease.value.expires
    && id in t.calls && t.calls[id].holder == principal && at < t.calls[id].expires
  }

  /** Somebody else has it then. */
  ghost predicate Blocked(t: Tables, principal: string, id: string, at: real) {
    exists p, i :: (p, i) != (principal, id) && Occupies(t, p, i, at)
  }

  /** An event that is answered with success. */
  predicate Succeeds(t: Tables, e: Event) {
    match e
    case Enter(p, id, _, now, _) => MayEnter(t, p, id, now)
    case Renew(p, id, now, _) => MayRenew(t, p, id, now)
    case _ => true
  }

  lemma OneOccupant(t: Tables, p: string, i: string, q: string, j: string, at: real, other: real)
    requires Lockstep(t) && Occupies(t, p, i, at) && Occupies(t, q, j, other)
    ensures (p, i) == (q, j)
  {
  }

  /** A call may enter exactly when no other has the machine, and may renew exactly while it has it itself. */
  lemma AnswersAreExact(t: Tables, e: Event)
    requires Lockstep(t)
    ensures e.Enter? ==> (Succeeds(t, e) <==> !Blocked(t, e.principal, e.id, e.now))
    ensures e.Renew? ==> (Succeeds(t, e) <==> Occupies(t, e.principal, e.id, e.now))
  {
    if t.lease.Some? {
      var id :| t.calls.Keys == {id};
      assert id in t.calls;
      assert e.Enter? && !Expired(t, e.now) ==> Occupies(t, t.lease.value.holder, id, e.now);
    }
  }

  /** Afterwards it has the machine until the period is over, and no other call has it at any time. */
  lemma SuccessSetsTheEnd(t: Tables, e: Event)
    requires Lockstep(t) && (e.Enter? || e.Renew?) && Succeeds(t, e)
    ensures forall at :: Occupies(Step(t, e), e.principal, e.id, at) <==> at < e.now + e.seconds
    ensures forall at :: !Blocked(Step(t, e), e.principal, e.id, at)
  {
  }

  /** A refused event leaves everybody's time from then on as it was. */
  lemma RefusalMovesNothing(t: Tables, e: Event)
    requires Lockstep(t) && !Succeeds(t, e)
    ensures forall p, i, at :: at >= e.now ==> (Occupies(Step(t, e), p, i, at) <==> Occupies(t, p, i, at))
  {
  }

  /**
   Leaving ends the hold of the call that leaves, releasing the hold of the principal, and a look at the lease
   none. Nobody else's time moves, apart from times that are past.
   */
  lemma EndsAreExact(t: Tables, e: Event, p: string, i: string, at: real)
    requires Lockstep(t) && (e.Leave? || e.Release? || e.Status?)
    ensures var ended := (e.Leave? && (p, i) == (e.principal, e.id)) || (e.Release? && p == e.principal);
      && (ended ==> !Occupies(Step(t, e), p, i, at))
      && (!ended && (e.Status? ==> at >= e.now) ==> (Occupies(Step(t, e), p, i, at) <==> Occupies(t, p, i, at)))
  {
  }

  /** The acquisition time is that of the first entry of an unbroken hold. */
  lemma AcquisitionStays(t: Tables, e: Event, p: string, i: string)
    requires Lockstep(t) && Occupies(t, p, i, e.now) && Step(t, e).lease.Some?
    ensures Step(t, e).lease.value.acquired == t.lease.value.acquired
  {
  }

  lemma AcquisitionStarts(t: Tables, e: Event)
    requires Lockstep(t) && e.Enter? && Succeeds(t, e) && !Occupies(t, e.principal, e.id, e.now)
    ensures Step(t, e).lease.Some? && Step(t, e).lease.value.acquired == e.now
  {
  }

  /** The call's own entries and renewals. */
  predicate Own(e: Event, principal: string, id: string) {
    (e.Enter? || e.Renew?) && e.principal == principal && e.id == id
  }

  /** Where the end of the hold is after the event. */
  function EndAfter(end: real, e: Event, principal: string, id: string): real {
    if Own(e, principal, id) then e.now + e.seconds else end
  }

  /** The call enters or renews again before each end, and neither leaves nor is released; nothing comes too late. */
  predicate KeepsUp(end: real, es: seq<Event>, principal: string, id: string)
    decreases |es|
  {
    es == [] ||
    (&& es[0].now < end
     && !(es[0].Leave? && es[0].principal == principal && es[0].id == id)
     && !(es[0].Release? && es[0].principal == principal)
     && KeepsUp(EndAfter(end, es[0], principal, id), es[1..], principal, id))
  }

  function EndOf(end: real, es: seq<Event>, principal: string, id: string): real
    decreases |es|
  {
    if es == [] then end else EndOf(EndAfter(end, es[0], principal, id), es[1..], principal, id)
  }

  /** All entries and renewals of the call succeed, and no other entry does. */
  predicate Undisturbed(t: Tables, es: seq<Event>, principal: string, id: string)
    decreases |es|
  {
    es == [] ||
    (&& (Own(es[0], principal, id) ==> Succeeds(t, es[0]))
     && (es[0].Enter? && !Own(es[0], principal, id) ==> !Succeeds(t, es[0]))
     && Undisturbed(Step(t, es[0]), es[1..], principal, id))
  }

  ghost predicate TakenUntil(t: Tables, principal: string, id: string, end: real) {
    Lockstep(t) && (forall at :: Occupies(t, principal, id, at) <==> at < end)
  }

  lemma StepKeepsUp(t: Tables, e: Event, principal: string, id: string, end: real)
    requires TakenUntil(t, principal, id, end) && e.now < end
    requires !(e.Leave? && e.principal == principal && e.id == id) && !(e.Release? && e.principal == principal)
    ensures TakenUntil(Step(t, e), principal, id, EndAfter(end, e, principal, id))
    ensures Own(e, principal, id) ==> Succeeds(t, e)
    ensures e.Enter? && !Own(e, principal, id) ==> !Succeeds(t, e)
  {
    assert Occupies(t, principal, id, e.now);
    StepKeepsLockstep(t, e);
    AnswersAreExact(t, e);
  }

  /** A call that enters or renews before each end keeps the machine against every other entry, until its last end. */
  lemma {:induction false} KeepingUpKeepsTheMachine(t: Tables, es: seq<Event>, principal: string, id: string, end: real)
    requires TakenUntil(t, principal, id, end) && KeepsUp(end, es, principal, id)
    ensures TakenUntil(Run(t, es), principal, id, EndOf(end, es, principal, id))
    ensures Undisturbed(t, es, principal, id)
    decreases |es|
  {
    hide TakenUntil, Succeeds, Step, Own;
    if es != [] {
      StepKeepsUp(t, es[0], principal, id, end);
      KeepingUpKeepsTheMachine(Step(t, es[0]), es[1..], principal, id, EndAfter(end, es[0], principal, id));
    }
  }

  /** And from its last end on any call may enter: the hold is over when it was not kept up. */
  lemma EndedHoldIsFree(t: Tables, e: Event, principal: string, id: string, end: real)
    requires TakenUntil(t, principal, id, end) && e.Enter? && e.now >= end
    ensures Succeeds(t, e) && TakenUntil(Step(t, e), e.principal, e.id, e.now + e.seconds)
  {
    assert Occupies(t, principal, id, end - 1.0);
    assert !Occupies(t, principal, id, e.now);
    StepKeepsLockstep(t, e);
    SuccessSetsTheEnd(t, e);
  }
}
