/**
 The machine-wide lease for mutating calls: one table with at most one lease, one with the call behind
 it, kept in lockstep by separate statements of each transaction.
 */
module MutatingLease {
  import opened Prelude

  datatype Lease = Lease(holder: string, acquired: real, expires: real)

  datatype CallRow = CallRow(holder: string, tool: string, started: real, expires: real)

  datatype Tables = Tables(lease: Option<Lease>, calls: map<string, CallRow>)

  const Free := Tables(None, map[])

  /** A lease exists exactly when one call row does, with the same holder and expiry. */
  ghost predicate Lockstep(t: Tables) {
    match t.lease
    case None => t.calls == map[]
    case Some(l) =>
      exists id :: id in t.calls && t.calls.Keys == {id} && t.calls[id].holder == l.holder
        && t.calls[id].expires == l.expires
  }

  predicate HeldBy(t: Tables, principal: string, id: string) {
    t.lease.Some? && t.lease.value.holder == principal && t.calls.Keys == {id}
  }

  predicate Expired(t: Tables, now: real) {
    t.lease.Some? && t.lease.value.expires <= now
  }

  // --------------------------------------------------------- specification

  function Live(t: Tables, now: real): Tables {
    if Expired(t, now) then Free else t
  }

  /** Entering succeeds when the machine is free, the lease has expired, or for the call that holds it. */
  predicate MayEnter(t: Tables, principal: string, id: string, now: real) {
    Live(t, now).lease.None? || HeldBy(Live(t, now), principal, id)
  }

  function Held(t: Tables, principal: string, id: string, tool: string, now: real, expires: real): Tables {
    var acquired := if Live(t, now).lease.Some? then t.lease.value.acquired else now;
    Tables(Some(Lease(principal, acquired, expires)), map[id := CallRow(principal, tool, now, expires)])
  }

  predicate MayRenew(t: Tables, principal: string, id: string, now: real) {
    id in Live(t, now).calls && t.calls[id].holder == principal
  }

  function Renewed(t: Tables, id: string, expires: real): Tables
    requires id in t.calls && t.lease.Some?
  {
    Tables(Some(t.lease.value.(expires := expires)), t.calls[id := t.calls[id].(expires := expires)])
  }

  /** Leaving frees the machine for the call that holds it and does nothing for any other. */
  function Left(t: Tables, principal: string, id: string): Tables {
    if HeldBy(t, principal, id) then Free else t
  }

  function Released(t: Tables, principal: string): Tables {
    if t.lease.Some? && t.lease.value.holder == principal then Free else t
  }

  // --------------------------------------------------------------- methods

  /** The database shared by every host process of the machine. */
  class Database {
    var lease: Option<Lease>
    var calls: map<string, CallRow>

    constructor ()
      ensures View() == Free
    {
      lease, calls := None, map[];
    }

    function View(): Tables
      reads this
    {
      Tables(lease, calls)
    }
  }

  class LeaseClient {
    const db: Database
    const seconds: real

    constructor (db: Database, seconds: real)
      ensures this.db == db && this.seconds >= 3.0 && (seconds >= 3.0 ==> this.seconds == seconds)
    {
      this.db := db;
      this.seconds := if seconds < 3.0 then 3.0 else seconds;
    }

    method ExpireLocked(now: real)
      modifies db
      ensures db.View() == Live(old(db.View()), now)
    {
      if db.lease.Some? && db.lease.value.expires <= now {
        db.calls := map[];
        db.lease := None;
      }
    }

    method EnterSync(principal: string, id: string, tool: string, now: real) returns (entered: bool)
      requires Lockstep(db.View())
      modifies db
      ensures Lockstep(db.View())
      ensures entered == MayEnter(old(db.View()), principal, id, now)
      ensures db.View()
              == if entered then Held(old(db.View()), principal, id, tool, now, now + seconds) else old(db.View())
    {
      ghost var before := db.View();
      var rollbackLease, rollbackCalls := db.lease, db.calls;
      ExpireLocked(now);
      var sameCall := false;
      if db.lease.Some? {
        var active :| active in db.calls;
        sameCall := db.lease.value.holder == principal && active == id;
        if !sameCall {
          db.lease, db.calls := rollbackLease, rollbackCalls;
          return false;
        }
      }
      if db.lease.None? {
        db.lease := Some(Lease(principal, now, now + seconds));
      } else {
        db.lease := Some(db.lease.value.(expires := now + seconds));
      }
      db.calls := db.calls[id := CallRow(principal, tool, now, now + seconds)];
      assert db.View() == Held(before, principal, id, tool, now, now + seconds);
      assert db.calls.Keys == {id};
      return true;
    }

    method RenewSync(principal: string, id: string, now: real) returns (renewed: bool)
      requires Lockstep(db.View())
      modifies db
      ensures Lockstep(db.View())
      ensures renewed == MayRenew(old(db.View()), principal, id, now)
      ensures db.View() == if renewed then Renewed(old(db.View()), id, now + seconds) else Live(old(db.View()), now)
    {
      ExpireLocked(now);
      if id !in db.calls || db.calls[id].holder != principal {
        return false;
      }
      db.calls := db.calls[id := db.calls[id].(expires := now + seconds)];
      if db.lease.Some? && db.lease.value.holder == principal {
        db.lease := Some(db.lease.value.(expires := now + seconds));
      }
      assert db.calls.Keys == {id};
      return true;
    }

    /** The latest expiry among the holder's calls. */
    method LatestExpiry(calls: map<string, CallRow>, principal: string) returns (expiry: Option<real>)
      ensures expiry.None? <==> forall id :: id in calls ==> calls[id].holder != principal
      ensures expiry.Some? ==>
                exists id :: id in calls && calls[id].holder == principal && calls[id].expires == expiry.value
      ensures expiry.Some? ==> forall id :: id in calls && calls[id].holder == principal ==>
                calls[id].expires <= expiry.value
    {
      expiry := None;
      var rest := calls.Keys;
      while rest != {}
        invariant rest <= calls.Keys
        invariant expiry.None? <==> forall id :: id in calls && id !in rest ==> calls[id].holder != principal
        invariant expiry.Some? ==>
                    exists id :: id in calls && calls[id].holder == principal && calls[id].expires == expiry.value
        invariant expiry.Some? ==>
                    forall id :: id in calls && id !in rest && calls[id].holder == principal ==>
                      calls[id].expires <= expiry.value
        decreases |rest|
      {
        var id :| id in rest;
        rest := rest - {id};
        if calls[id].holder == principal && (expiry.None? || expiry.value < calls[id].expires) {
          expiry := Some(calls[id].expires);
        }
      }
    }

    method LeaveSync(principal: string, id: string)
      requires Lockstep(db.View())
      modifies db
      ensures Lockstep(db.View()) && db.View() == Left(old(db.View()), principal, id)
    {
      if id in db.calls && db.calls[id].holder == principal {
        db.calls := db.calls - {id};
      }
      var expiry := LatestExpiry(db.calls, principal);
      if db.lease.Some? && db.lease.value.holder == principal {
        db.lease := if expiry.None? then None else Some(db.lease.value.(expires := expiry.value));
      }
    }

    method ReleaseSync(principal: string)
      requires Lockstep(db.View())
      modifies db
      ensures Lockstep(db.View()) && db.View() == Released(old(db.View()), principal)
    {
      db.calls := map id | id in db.calls && db.calls[id].holder != principal :: db.calls[id];
      if db.lease.Some? && db.lease.value.holder == principal {
        db.lease := None;
      }
    }
  }

  // ------------------------------------------------------------------ runs

  /** One transaction of one process, at its time; processes may lease for different periods. */
  datatype Event =
    | Enter(principal: string, id: string, tool: string, now: real, seconds: real)
    | Renew(principal: string, id: string, now: real, seconds: real)
    | Leave(principal: string, id: string, now: real)
    | Release(principal: string, now: real)
    | Status(now: real)

  function Step(t: Tables, e: Event): Tables {
    match e
    case Enter(p, id, tool, now, seconds) =>
      if MayEnter(t, p, id, now) then Held(t, p, id, tool, now, now + seconds) else t
    case Renew(p, id, now, seconds) =>
      if t.lease.Some? && MayRenew(t, p, id, now) then Renewed(t, id, now + seconds) else Live(t, now)
    case Leave(p, id, _) => Left(t, p, id)
    case Release(p, _) => Released(t, p)
    case Status(now) => Live(t, now)
  }

  function Run(t: Tables, es: seq<Event>): Tables
    decreases |es|
  {
    if es == [] then t else Run(Step(t, es[0]), es[1..])
  }

  lemma StepKeepsLockstep(t: Tables, e: Event)
    requires Lockstep(t)
    ensures Lockstep(Step(t, e))
  {
    match e
    case Enter(p, id, tool, now, seconds) =>
      assert Held(t, p, id, tool, now, now + seconds).calls.Keys == {id};
    case Renew(p, id, now, seconds) =>
      if t.lease.Some? && MayRenew(t, p, id, now) {
        assert Renewed(t, id, now + seconds).calls.Keys == {id};
      }
    case _ =>
  }

  lemma {:induction false} RunKeepsLockstep(t: Tables, es: seq<Event>)
    requires Lockstep(t)
    ensures Lockstep(Run(t, es))
    decreases |es|
  {
    if es != [] {
      StepKeepsLockstep(t, es[0]);
      RunKeepsLockstep(Step(t, es[0]), es[1..]);
    }
  }

  /** The event ends the hold of this call: it leaves, its principal is released, or the lease is over. */
  predicate Ends(t: Tables, e: Event, principal: string, id: string) {
    || (e.Leave? && e.principal == principal && e.id == id)
    || (e.Release? && e.principal == principal)
    || Expired(t, e.now)
  }

  predicate Intrudes(t: Tables, e: Event, principal: string, id: string) {
    e.Enter? && (e.principal, e.id) != (principal, id) && MayEnter(t, e.principal, e.id, e.now)
  }

  lemma HoldersStay(t: Tables, e: Event, principal: string, id: string)
    requires Lockstep(t) && HeldBy(t, principal, id) && !Ends(t, e, principal, id)
    ensures HeldBy(Step(t, e), principal, id) && !Intrudes(t, e, principal, id)
  {
  }

  /** While nothing ends the hold of a call, no other call can enter. */
  lemma {:induction false} HeldUntilEnded(t: Tables, es: seq<Event>, principal: string, id: string)
    requires Lockstep(t) && HeldBy(t, principal, id)
    requires forall k :: 0 <= k < |es| ==> !Ends(Run(t, es[..k]), es[k], principal, id)
    ensures HeldBy(Run(t, es), principal, id)
    ensures forall k :: 0 <= k < |es| ==> !Intrudes(Run(t, es[..k]), es[k], principal, id)
    decreases |es|
  {
    if es != [] {
      assert es[..0] == [];
      assert !Ends(Run(t, es[..0]), es[0], principal, id);
      HoldersStay(t, es[0], principal, id);
      StepKeepsLockstep(t, es[0]);
      var rest := es[1..];
      forall k | 0 <= k < |rest| ensures Run(Step(t, es[0]), rest[..k]) == Run(t, es[..k + 1]) {
        assert es[..k + 1][1..] == rest[..k];
      }
      HeldUntilEnded(Step(t, es[0]), rest, principal, id);
      forall k | 0 <= k < |es| ensures !Intrudes(Run(t, es[..k]), es[k], principal, id) {
        if k > 0 { assert es[k] == rest[k - 1]; }
      }
    }
  }

  lemma {:induction false} RunSplits(t: Tables, a: seq<Event>, b: seq<Event>)
    ensures Run(t, a + b) == Run(Run(t, a), b)
    decreases |a|
  {
    if a == [] {
      assert a + b == b;
    } else {
      assert (a + b)[1..] == a[1..] + b;
      RunSplits(Step(t, a[0]), a[1..], b);
    }
  }

  /** Between successful entries of two different calls the first leaves, is released, or its lease is over. */
  lemma EntriesAreSeparated(es: seq<Event>, i: nat, j: nat)
    requires i < j < |es| && es[i].Enter? && es[j].Enter? && (es[i].principal, es[i].id) != (es[j].principal, es[j].id)
    requires MayEnter(Run(Free, es[..i]), es[i].principal, es[i].id, es[i].now)
    requires MayEnter(Run(Free, es[..j]), es[j].principal, es[j].id, es[j].now)
    ensures exists k :: i < k <= j && Ends(Run(Free, es[..k]), es[k], es[i].principal, es[i].id)
  {
    var (p, id) := (es[i].principal, es[i].id);
    if forall k :: i < k <= j ==> !Ends(Run(Free, es[..k]), es[k], p, id) {
      var before := Run(Free, es[..i]);
      var start := Step(before, es[i]);
      RunKeepsLockstep(Free, es[..i]);
      StepKeepsLockstep(before, es[i]);
      assert HeldBy(start, p, id);
      var later := es[i + 1..j + 1];
      forall k | 0 <= k < |later| ensures Run(start, later[..k]) == Run(Free, es[..i + 1 + k]) {
        assert es[..i + 1 + k] == es[..i] + ([es[i]] + later[..k]);
        RunSplits(Free, es[..i], [es[i]] + later[..k]);
        assert ([es[i]] + later[..k])[1..] == later[..k];
      }
      var last := j - i - 1;
      assert i + 1 + last == j && later[last] == es[i + 1 + last];
      assert Run(start, later[..last]) == Run(Free, es[..i + 1 + last]);
      assert Intrudes(Run(start, later[..last]), later[last], p, id);
      HeldUntilEnded(start, later, p, id);
    }
  }
}
