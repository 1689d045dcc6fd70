/** The durable ledger of mutating calls: its rows and the five transactions on them. */
module Ledger {
  import opened Prelude

  datatype Slot = Slot(principal: string, key: string)

  datatype RowState = Executing | Done | Indeterminate

  datatype Row = Row(
    fingerprint: string, state: RowState, owner: string, result: Option<string>,
    created: real, updated: real, leaseUntil: Option<real>, expiresAt: real)

  type Rows = map<Slot, Row>

  /** One ledger object: a fresh owner id and its clamped limits. */
  datatype Owner = Owner(id: string, ttl: real, lease: real)

  predicate ValidOwner(o: Owner) {
    o.ttl >= 60.0 && o.lease >= 5.0
  }

  /** A claim's outcome; the last three are raised and roll the transaction back. */
  datatype Answer = New | Replay(result: string) | Conflict | InFlight | Ambiguous

  function Unexpired(rows: Rows, now: real): Rows {
    map slot | slot in rows && !(rows[slot].state.Done? && rows[slot].expiresAt <= now) :: rows[slot]
  }

  function Taken(o: Owner, fingerprint: string, created: real, now: real): Row {
    Row(fingerprint, Executing, o.id, None, created, now, Some(now + o.lease), now + o.ttl)
  }

  function Answered(row: Row, o: Owner, fingerprint: string, retryStale: bool, now: real): Answer {
    if row.fingerprint != fingerprint then Conflict
    else if row.state.Done? then if row.result.Some? then Replay(row.result.value) else Ambiguous
    else if row.state.Executing? && retryStale && row.owner != o.id then New
    else if row.state.Executing? && row.leaseUntil.Some? && row.leaseUntil.value > now then InFlight
    else if row.state.Executing? && retryStale then New
    else Ambiguous
  }

  function Claim(rows: Rows, o: Owner, slot: Slot, fingerprint: string, retryStale: bool, now: real): (Answer, Rows) {
    var live := Unexpired(rows, now);
    if slot !in live then (New, live[slot := Taken(o, fingerprint, now, now)])
    else
      var row := live[slot];
      match Answered(row, o, fingerprint, retryStale, now)
      case New =>
        var taken := row.(owner := o.id, updated := now, leaseUntil := Some(now + o.lease), expiresAt := now + o.ttl);
        (New, live[slot := taken])
      case Replay(result) => (Replay(result), live)
      case refusal => (refusal, rows)
  }

  /** The rows an owner may renew, complete, abandon or mark. */
  predicate Owns(rows: Rows, o: Owner, slot: Slot) {
    slot in rows && rows[slot].state.Executing? && rows[slot].owner == o.id
  }

  function Renew(rows: Rows, o: Owner, slot: Slot, now: real): Rows {
    if Owns(rows, o, slot) then rows[slot := rows[slot].(leaseUntil := Some(now + o.lease), updated := now)] else rows
  }

  function Complete(rows: Rows, o: Owner, slot: Slot, result: string, now: real): Rows {
    if Owns(rows, o, slot)
    then rows[slot := rows[slot].(state := Done, result := Some(result), updated := now, leaseUntil := None,
      expiresAt := now + o.ttl)]
    else rows
  }

  function Abandon(rows: Rows, o: Owner, slot: Slot): Rows {
    if Owns(rows, o, slot) then rows - {slot} else rows
  }

  function Mark(rows: Rows, o: Owner, slot: Slot, now: real): Rows {
    if Owns(rows, o, slot)
    then rows[slot := rows[slot].(state := Indeterminate, updated := now, leaseUntil := None)]
    else rows
  }

  /** The table every ledger of one machine shares. */
  class Database {
    var rows: Rows

    constructor ()
      ensures rows == map[]
    {
      rows := map[];
    }
  }

  class IdempotencyLedger {
    const db: Database
    const owner: Owner

    constructor (db: Database, id: string, ttl: real, lease: real)
      ensures this.db == db && owner.id == id && ValidOwner(owner)
      ensures owner.ttl == ttl || (ttl < 60.0 && owner.ttl == 60.0)
      ensures owner.lease == lease || (lease < 5.0 && owner.lease == 5.0)
    {
      this.db := db;
      owner := Owner(id, if ttl < 60.0 then 60.0 else ttl, if lease < 5.0 then 5.0 else lease);
    }

    method ClaimSync(slot: Slot, fingerprint: string, retryStale: bool, now: real) returns (answer: Answer)
      modifies db
      ensures (answer, db.rows) == Claim(old(db.rows), owner, slot, fingerprint, retryStale, now)
    {
      var before := db.rows;
      db.rows := map s | s in db.rows && !(db.rows[s].state.Done? && db.rows[s].expiresAt <= now) :: db.rows[s];
      if slot !in db.rows {
        db.rows := db.rows[slot := Taken(owner, fingerprint, now, now)];
        return New;
      }
      var row := db.rows[slot];
      if row.fingerprint != fingerprint {
        db.rows := before;
        return Conflict;
      }
      if row.state.Done? {
        match row.result {
          case Some(result) => return Replay(result);
          case None =>
            db.rows := before;
            return Ambiguous;
        }
      }
      if row.state.Executing? && retryStale && row.owner != owner.id {
        db.rows := db.rows[slot := row.(owner := owner.id, updated := now, leaseUntil := Some(now + owner.lease),
          expiresAt := now + owner.ttl)];
        return New;
      }
      if row.state.Executing? && row.leaseUntil.Some? && row.leaseUntil.value > now {
        db.rows := before;
        return InFlight;
      }
      if row.state.Executing? && retryStale {
        db.rows := db.rows[slot := row.(owner := owner.id, updated := now, leaseUntil := Some(now + owner.lease),
          expiresAt := now + owner.ttl)];
        return New;
      }
      if row.state.Executing? {
        db.rows := db.rows[slot := row.(state := Indeterminate, updated := now)];
      }
      db.rows := before;
      return Ambiguous;
    }

    method RenewSync(slot: Slot, now: real) returns (renewed: bool)
      modifies db
      ensures db.rows == Renew(old(db.rows), owner, slot, now)
      ensures renewed == Owns(old(db.rows), owner, slot)
    {
      renewed := Owns(db.rows, owner, slot);
      if renewed {
        db.rows := db.rows[slot := db.rows[slot].(leaseUntil := Some(now + owner.lease), updated := now)];
      }
    }

    /** Answers whether the claim was still owned; a lost claim is raised. */
    method CompleteSync(slot: Slot, result: string, now: real) returns (kept: bool)
      modifies db
      ensures db.rows == Complete(old(db.rows), owner, slot, result, now)
      ensures kept == Owns(old(db.rows), owner, slot)
    {
      kept := Owns(db.rows, owner, slot);
      if kept {
        var row := db.rows[slot];
        db.rows := db.rows[slot := row.(state := Done, result := Some(result), updated := now, leaseUntil := None,
          expiresAt := now + owner.ttl)];
      }
    }

    method AbandonSync(slot: Slot)
      modifies db
      ensures db.rows == Abandon(old(db.rows), owner, slot)
    {
      if Owns(db.rows, owner, slot) {
        db.rows := db.rows - {slot};
      }
    }

    method MarkIndeterminateSync(slot: Slot, now: real)
      modifies db
      ensures db.rows == Mark(old(db.rows), owner, slot, now)
    {
      if Owns(db.rows, owner, slot) {
        db.rows := db.rows[slot := db.rows[slot].(state := Indeterminate, updated := now, leaseUntil := None)];
      }
    }
  }
}

/** Calls of several hosts on one ledger, from claim to dispatch to outcome, with crashes anywhere. */
module AtMostOnce {
  import opened Prelude
  import opened Ledger

  datatype Phase = Claimed | Dispatched

  datatype Call = Call(owner: Owner, slot: Slot, fingerprint: string, phase: Phase)

  datatype Dispatch = Dispatch(slot: Slot, fingerprint: string, owner: Owner, at: real)

  /** `log` and `delivered` record history: every provider dispatch, and every result a call recorded. */
  datatype State = State(
    rows: Rows, calls: map<nat, Call>, clock: real, log: seq<Dispatch>,
    delivered: set<(Slot, string, string)>)

  /** How the wait for the provider ends. */
  datatype Ending = Returned | ToolRefused | TimedOut | Interrupted | Crashed

  datatype Action = Record | Surrender | Blur

  /**
   What `call` does with its row then. A draining call waits for the definitive result first; a provider
   outside the host that fails after dispatch leaves a mutation in doubt.
   */
  function Settled(ending: Ending, drains: bool, external: bool, safe: bool): Action {
    match ending
    case Returned => Record
    case ToolRefused => if !safe && external then Blur else Record
    case Crashed => if !safe && external then Blur else Record
    case _ => if drains then Record else if safe then Surrender else Blur
  }

  /** Whether the machine's lease outlives the call: exactly when its outcome is in doubt. */
  function LeaseKept(ending: Ending, drains: bool, external: bool, safe: bool): bool {
    match ending
    case Returned => false
    case ToolRefused => !safe && external
    case Crashed => !safe && external
    case _ => !drains && !safe
  }

  /** A dispatched mutation is never given up: its row is completed or marked, and only a marked one keeps the lease. */
  lemma MutationsAreNeverSurrendered(ending: Ending, drains: bool, external: bool, safe: bool)
    ensures !safe ==> !Settled(ending, drains, external, safe).Surrender?
    ensures LeaseKept(ending, drains, external, safe) <==> Settled(ending, drains, external, safe).Blur?
    ensures drains && (ending.TimedOut? || ending.Interrupted?) ==> Settled(ending, drains, external, safe).Record?
  {
  }

  /** `safe`: read-only and idempotent fingerprints, which may be retried. */
  datatype Event =
    | Tick(delta: real)
    | Admit(id: nat, owner: Owner, slot: Slot, fingerprint: string)
    | Start(id: nat)
    | Renewal(owner: Owner, slot: Slot)
    | Refuse(id: nat)
    | Settle(id: nat, ending: Ending, drains: bool, external: bool, result: string)
    | Vanish(id: nat)

  predicate Enabled(s: State, e: Event) {
    match e
    case Tick(delta) => delta >= 0.0
    case Admit(id, owner, _, _) => id !in s.calls && ValidOwner(owner)
    case Start(id) => id in s.calls && s.calls[id].phase.Claimed?
    case Renewal(owner, _) => true
    case Refuse(id) => id in s.calls && s.calls[id].phase.Claimed?
    case Settle(id, _, _, _, _) => id in s.calls && s.calls[id].phase.Dispatched?
    case Vanish(id) => id in s.calls
  }

  /**
   `Admit` claims, `Start` hands the call to the provider, `Refuse` gives the claim up before that, and
   `Settle` decides afterwards. `Vanish` is a crash or an exception on the way: the row stays as it is.
   */
  function Step(s: State, e: Event, safe: set<string>): State
    requires Enabled(s, e)
  {
    match e
    case Tick(delta) => s.(clock := s.clock + delta)
    case Admit(id, owner, slot, fingerprint) =>
      var (answer, rows) := Claim(s.rows, owner, slot, fingerprint, fingerprint in safe, s.clock);
      s.(rows := rows, calls := if answer.New? then s.calls[id := Call(owner, slot, fingerprint, Claimed)] else s.calls)
    case Start(id) =>
      var c := s.calls[id];
      s.(calls := s.calls[id := c.(phase := Dispatched)],
         log := s.log + [Dispatch(c.slot, c.fingerprint, c.owner, s.clock)])
    case Renewal(owner, slot) => s.(rows := Renew(s.rows, owner, slot, s.clock))
    case Refuse(id) => s.(rows := Abandon(s.rows, s.calls[id].owner, s.calls[id].slot), calls := s.calls - {id})
    case Settle(id, ending, drains, external, result) =>
      var c := s.calls[id];
      var t := s.(calls := s.calls - {id});
      (match Settled(ending, drains, external, c.fingerprint in safe)
       case Record =>
         t.(rows := Complete(s.rows, c.owner, c.slot, result, s.clock),
           delivered := s.delivered + {(c.slot, c.fingerprint, result)})
       case Surrender => t.(rows := Abandon(s.rows, c.owner, c.slot))
       case Blur => t.(rows := Mark(s.rows, c.owner, c.slot, s.clock)))
    case Vanish(id) => s.(calls := s.calls - {id})
  }

  predicate Legal(s: State, es: seq<Event>, safe: set<string>)
    decreases |es|
  {
    es == [] || (Enabled(s, es[0]) && Legal(Step(s, es[0], safe), es[1..], safe))
  }

  function Run(s: State, es: seq<Event>, safe: set<string>): State
    requires Legal(s, es, safe)
    decreases |es|
  {
    if es == [] then s else Run(Step(s, es[0], safe), es[1..], safe)
  }

  const Init := State(map[], map[], 0.0, [], {})

  /** The slot is only ever claimed with these fingerprints. */
  predicate Uses(es: seq<Event>, slot: Slot, fingerprints: set<string>) {
    forall i :: 0 <= i < |es| && es[i].Admit? && es[i].slot == slot ==> es[i].fingerprint in fingerprints
  }

  // ------------------------------------------------------------- invariant

  /** A pending call on the slot owns its row, and is the only one. */
  predicate PendingOwnsRow(s: State, slot: Slot) {
    && (forall id :: id in s.calls && s.calls[id].slot == slot ==>
          && slot in s.rows && s.rows[slot].state.Executing?
          && s.rows[slot].owner == s.calls[id].owner.id && s.rows[slot].fingerprint == s.calls[id].fingerprint)
    && (forall i, j :: i in s.calls && j in s.calls && s.calls[i].slot == slot == s.calls[j].slot ==> i == j)
  }

  predicate Unsafe(s: State, slot: Slot, safe: set<string>) {
    forall id :: id in s.calls && s.calls[id].slot == slot ==>
      s.calls[id].fingerprint !in safe && ValidOwner(s.calls[id].owner)
  }

  /** What keeps the slot from being dispatched again before the result of `d` expires. */
  predicate Barred(s: State, d: Dispatch) {
    s.clock >= d.at + d.owner.ttl || (d.slot in s.rows && HoldsTrace(s, d))
  }

  /** The row still answers for the dispatch: executing under its host, recorded past its lifetime, or in doubt. */
  predicate HoldsTrace(s: State, d: Dispatch)
    requires d.slot in s.rows
  {
    var row := s.rows[d.slot];
    && row.fingerprint == d.fingerprint
    && match row.state
       case Indeterminate => true
       case Done => row.expiresAt >= d.at + d.owner.ttl
       case Executing =>
         && row.owner == d.owner.id
         && forall id :: id in s.calls && s.calls[id].slot == d.slot ==>
           s.calls[id].phase.Dispatched? && s.calls[id].owner == d.owner
  }

  predicate AllBarred(s: State, slot: Slot) {
    forall i :: 0 <= i < |s.log| && s.log[i].slot == slot ==> s.log[i].at <= s.clock && Barred(s, s.log[i])
  }

  predicate ApartFrom(log: seq<Dispatch>, slot: Slot, safe: set<string>, i: nat, j: nat)
    requires i < |log| && j < |log|
  {
    log[i].slot == slot == log[j].slot && log[i].fingerprint !in safe ==> log[j].at >= log[i].at + log[i].owner.ttl
  }

  /** After an unsafe dispatch, the slot is not dispatched again within that host's result lifetime. */
  predicate AtMostOnce(log: seq<Dispatch>, slot: Slot, safe: set<string>) {
    forall i: nat, j: nat :: i < j < |log| ==> ApartFrom(log, slot, safe, i, j)
  }

  predicate Faithful(s: State, slot: Slot) {
    slot in s.rows && s.rows[slot].state.Done? && s.rows[slot].result.Some? ==>
      (slot, s.rows[slot].fingerprint, s.rows[slot].result.value) in s.delivered
  }

  predicate Inv(s: State, slot: Slot, safe: set<string>) {
    && PendingOwnsRow(s, slot) && Unsafe(s, slot, safe) && AllBarred(s, slot)
    && AtMostOnce(s.log, slot, safe) && Faithful(s, slot)
  }

  lemma StartKeeps(s: State, id: nat, slot: Slot, safe: set<string>)
    requires Inv(s, slot, safe) && Enabled(s, Start(id))
    ensures Inv(Step(s, Start(id), safe), slot, safe)
  {
    var t := Step(s, Start(id), safe);
    forall i: nat, j: nat | i < j < |t.log| ensures ApartFrom(t.log, slot, safe, i, j) {
      if j < |s.log| {
        assert ApartFrom(s.log, slot, safe, i, j);
      }
    }
  }

  lemma AdmitKeeps(s: State, e: Event, slot: Slot, safe: set<string>)
    requires Inv(s, slot, safe) && e.Admit? && Enabled(s, e) && (e.slot == slot ==> e.fingerprint !in safe)
    ensures Inv(Step(s, e, safe), slot, safe)
  {
    hide AtMostOnce;
  }

  lemma RefuseKeeps(s: State, id: nat, slot: Slot, safe: set<string>)
    requires Inv(s, slot, safe) && Enabled(s, Refuse(id))
    ensures Inv(Step(s, Refuse(id), safe), slot, safe)
  {
    hide AtMostOnce;
  }

  lemma SettleKeeps(s: State, e: Event, slot: Slot, safe: set<string>)
    requires Inv(s, slot, safe) && Enabled(s, e) && e.Settle?
    ensures Inv(Step(s, e, safe), slot, safe)
  {
    MutationsAreNeverSurrendered(e.ending, e.drains, e.external, s.calls[e.id].fingerprint in safe);
    hide AtMostOnce, Settled;
  }

  lemma StepKeeps(s: State, e: Event, slot: Slot, safe: set<string>)
    requires Inv(s, slot, safe) && Enabled(s, e)
    requires e.Admit? && e.slot == slot ==> e.fingerprint !in safe
    ensures Inv(Step(s, e, safe), slot, safe)
  {
    hide AtMostOnce;
    match e
    case Start(id) => StartKeeps(s, id, slot, safe);
    case Admit(_, _, _, _) => AdmitKeeps(s, e, slot, safe);
    case Refuse(id) => RefuseKeeps(s, id, slot, safe);
    case Settle(_, _, _, _, _) => SettleKeeps(s, e, slot, safe);
    case _ =>
  }

  lemma {:induction false} RunKeeps(s: State, es: seq<Event>, slot: Slot, fingerprints: set<string>, safe: set<string>)
    requires Inv(s, slot, safe) && Legal(s, es, safe) && Uses(es, slot, fingerprints) && fingerprints !! safe
    ensures Inv(Run(s, es, safe), slot, safe)
    decreases |es|
  {
    if es != [] {
      StepKeeps(s, es[0], slot, safe);
      RunKeeps(Step(s, es[0], safe), es[1..], slot, fingerprints, safe);
    }
  }

  // ------------------------------------------------------------ main results

  /** Only the fingerprints a slot is used with are ever dispatched for it. */
  predicate Within(s: State, slot: Slot, fingerprints: set<string>) {
    && (forall id :: id in s.calls && s.calls[id].slot == slot ==> s.calls[id].fingerprint in fingerprints)
    && (forall i :: 0 <= i < |s.log| && s.log[i].slot == slot ==> s.log[i].fingerprint in fingerprints)
  }

  lemma {:induction false} RunStaysWithin(s: State, es: seq<Event>, slot: Slot, fingerprints: set<string>,
      safe: set<string>)
    requires Within(s, slot, fingerprints) && Legal(s, es, safe) && Uses(es, slot, fingerprints)
    ensures Within(Run(s, es, safe), slot, fingerprints)
    decreases |es|
  {
    if es != [] {
      RunStaysWithin(Step(s, es[0], safe), es[1..], slot, fingerprints, safe);
    }
  }

  /** The keys of a slot are used either for calls that may be retried or for calls that may not. */
  predicate Disciplined(fingerprints: set<string>, safe: set<string>) {
    fingerprints <= safe || fingerprints !! safe
  }

  lemma DisciplinedKeysDispatchOnce(es: seq<Event>, slot: Slot, fingerprints: set<string>, safe: set<string>)
    requires Legal(Init, es, safe) && Uses(es, slot, fingerprints) && Disciplined(fingerprints, safe)
    ensures AtMostOnce(Run(Init, es, safe).log, slot, safe)
  {
    if fingerprints !! safe {
      RunKeeps(Init, es, slot, fingerprints, safe);
    } else {
      RunStaysWithin(Init, es, slot, fingerprints, safe);
    }
  }

  lemma {:induction false} RunAppends(s: State, es: seq<Event>, e: Event, safe: set<string>)
    requires Legal(s, es, safe) && Enabled(Run(s, es, safe), e)
    ensures Legal(s, es + [e], safe) && Run(s, es + [e], safe) == Step(Run(s, es, safe), e, safe)
    decreases |es|
  {
    if es != [] {
      assert (es + [e])[1..] == es[1..] + [e];
      RunAppends(Step(s, es[0], safe), es[1..], e, safe);
    } else {
      assert es + [e] == [e] && [e][1..] == [];
    }
  }

  /** One more event at the end of a run from the start. */
  lemma Then(es: seq<Event>, s: State, e: Event, slot: Slot, fs: set<string>, safe: set<string>)
      returns (longer: seq<Event>, t: State)
    requires Legal(Init, es, safe) && Run(Init, es, safe) == s && Uses(es, slot, fs)
    requires Enabled(s, e) && (e.Admit? ==> e.fingerprint in fs)
    ensures Legal(Init, longer, safe) && Run(Init, longer, safe) == t && Uses(longer, slot, fs)
    ensures t == Step(s, e, safe)
  {
    RunAppends(Init, es, e, safe);
    longer, t := es + [e], Step(s, e, safe);
  }

  /**
   A slot shared by both kinds of call can be dispatched twice at one instant: a retried call that lost
   its claim to another host can still give up the row its own host holds later for a mutation.
   */
  lemma MixedKeysRepeat(slot: Slot, retried: string, mutation: string, safe: set<string>) returns (es: seq<Event>)
    requires retried in safe && mutation !in safe
    ensures Legal(Init, es, safe) && Uses(es, slot, {retried, mutation})
    ensures !AtMostOnce(Run(Init, es, safe).log, slot, safe)
  {
    hide Legal, Run, Uses;
    var fs := {retried, mutation};
    var near, far := Owner("near", 60.0, 5.0), Owner("far", 60.0, 5.0);
    EmptyRun(slot, fs, safe);
    var s: State;
    es, s := Then([], Init, Admit(0, near, slot, retried), slot, fs, safe);
    es, s := Then(es, s, Start(0), slot, fs, safe);
    es, s := Then(es, s, Admit(1, far, slot, retried), slot, fs, safe);
    es, s := Then(es, s, Start(1), slot, fs, safe);
    es, s := Then(es, s, Settle(1, Returned, false, false, ""), slot, fs, safe);
    es, s := Then(es, s, Tick(60.0), slot, fs, safe);
    assert s.calls == map[0 := Call(near, slot, retried, Dispatched)];
    assert slot in s.rows && s.rows[slot].state.Done? && s.rows[slot].expiresAt <= s.clock;
    assert |s.log| == 2;
    es := Repeat(es, s, near, slot, retried, mutation, safe);
  }

  lemma EmptyRun(slot: Slot, fs: set<string>, safe: set<string>)
    ensures Legal(Init, [], safe) && Run(Init, [], safe) == Init && Uses([], slot, fs)
  {
  }

  /** The second half: the late timeout of the first call makes room for a second dispatch. */
  lemma Repeat(before: seq<Event>, start: State, near: Owner, slot: Slot, retried: string, mutation: string,
      safe: set<string>)
    returns (es: seq<Event>)
    requires retried in safe && mutation !in safe && ValidOwner(near)
    requires Legal(Init, before, safe) && Run(Init, before, safe) == start && Uses(before, slot, {retried, mutation})
    requires start.calls == map[0 := Call(near, slot, retried, Dispatched)] && |start.log| == 2
    requires slot in start.rows && start.rows[slot].state.Done? && start.rows[slot].expiresAt <= start.clock
    ensures Legal(Init, es, safe) && Uses(es, slot, {retried, mutation})
    ensures !AtMostOnce(Run(Init, es, safe).log, slot, safe)
  {
    hide Legal, Run, Uses;
    var fs := {retried, mutation};
    var s := start;
    es, s := Then(before, s, Admit(2, near, slot, mutation), slot, fs, safe);
    es, s := Then(es, s, Start(2), slot, fs, safe);
    es, s := Then(es, s, Settle(0, TimedOut, false, false, ""), slot, fs, safe);
    es, s := Then(es, s, Admit(3, near, slot, mutation), slot, fs, safe);
    es, s := Then(es, s, Start(3), slot, fs, safe);
    assert !ApartFrom(s.log, slot, safe, 2, 3);
  }

  /** At most once holds over every run exactly when the slot is not shared by both kinds of call. */
  lemma DisciplineIsExact(slot: Slot, fingerprints: set<string>, safe: set<string>)
    ensures Disciplined(fingerprints, safe)
            <==> forall es :: Legal(Init, es, safe) && Uses(es, slot, fingerprints) ==>
              AtMostOnce(Run(Init, es, safe).log, slot, safe)
  {
    if Disciplined(fingerprints, safe) {
      forall es | Legal(Init, es, safe) && Uses(es, slot, fingerprints)
        ensures AtMostOnce(Run(Init, es, safe).log, slot, safe)
      {
        DisciplinedKeysDispatchOnce(es, slot, fingerprints, safe);
      }
    } else {
      var retried :| retried in fingerprints && retried in safe;
      var mutation :| mutation in fingerprints && mutation !in safe;
      var es := MixedKeysRepeat(slot, retried, mutation, safe);
      assert Uses(es, slot, fingerprints);
    }
  }

  /**
   A dispatched mutation leaves a trace: until its lifetime is over, its key's row stands for it, executing
   under the very host, recorded beyond that lifetime, or in doubt.
   */
  lemma MutationsLeaveATrace(es: seq<Event>, slot: Slot, fingerprints: set<string>, safe: set<string>, i: nat)
    requires Legal(Init, es, safe) && Uses(es, slot, fingerprints) && fingerprints !! safe
    requires i < |Run(Init, es, safe).log| && Run(Init, es, safe).log[i].slot == slot
    requires var d := Run(Init, es, safe).log[i]; Run(Init, es, safe).clock < d.at + d.owner.ttl
    ensures slot in Run(Init, es, safe).rows && HoldsTrace(Run(Init, es, safe), Run(Init, es, safe).log[i])
  {
    RunKeeps(Init, es, slot, fingerprints, safe);
  }

  /** A recorded `indeterminate` row never changes and is never dispatched again, whatever the keys. */
  lemma {:induction false} IndeterminateIsFinal(s: State, es: seq<Event>, slot: Slot, safe: set<string>)
    requires Legal(s, es, safe) && slot in s.rows && s.rows[slot].state.Indeterminate?
    ensures slot in Run(s, es, safe).rows && Run(s, es, safe).rows[slot] == s.rows[slot]
    decreases |es|
  {
    if es != [] {
      IndeterminateIsFinal(Step(s, es[0], safe), es[1..], slot, safe);
    }
  }

  /** For a mutation's slot, a replayed result was delivered for the very arguments of the retry. */
  lemma ReplayIsFaithful(es: seq<Event>, slot: Slot, fingerprints: set<string>, safe: set<string>, o: Owner, f: string,
      result: string)
    requires Legal(Init, es, safe) && Uses(es, slot, fingerprints) && fingerprints !! safe
    requires Claim(Run(Init, es, safe).rows, o, slot, f, false, Run(Init, es, safe).clock).0 == Replay(result)
    ensures (slot, f, result) in Run(Init, es, safe).delivered
  {
    RunKeeps(Init, es, slot, fingerprints, safe);
  }
}

/** Arguments are compared after numbers are brought to one spelling. */
module ArgumentNumbers {
  import opened Prelude

  /** `Infinite` stands for NaN and the infinities. */
  datatype Value =
    | Null
    | Bool(b: bool)
    | Text(s: string)
    | Int(n: int)
    | Float(x: real)
    | Infinite
    | List(items: seq<Value>)
    | Dict(entries: map<string, Value>)

  predicate Finite(v: Value) {
    match v
    case Infinite => false
    case List(items) => forall i :: 0 <= i < |items| ==> Finite(items[i])
    case Dict(entries) => forall k :: k in entries ==> Finite(entries[k])
    case _ => true
  }

  /** An integral float becomes an integer; anything not finite is refused beforehand. */
  function Normalized(v: Value): (r: Value)
    requires Finite(v)
    ensures Finite(r)
  {
    match v
    case Float(x) => if x == x.Floor as real then Int(x.Floor) else v
    case List(items) => List(seq(|items|, i requires 0 <= i < |items| => Normalized(items[i])))
    case Dict(entries) => Dict(map k | k in entries :: Normalized(entries[k]))
    case _ => v
  }

  predicate IsNumber(v: Value) { v.Int? || v.Float? }

  function Number(v: Value): real
    requires IsNumber(v)
  {
    if v.Int? then v.n as real else v.x
  }

  /** Equal up to the spelling of numbers. */
  predicate Same(v: Value, w: Value) {
    if IsNumber(v) && IsNumber(w) then Number(v) == Number(w)
    else
      match v
      case List(items) => w.List? && |items| == |w.items| && forall i :: 0 <= i < |items| ==> Same(items[i], w.items[i])
      case Dict(entries) =>
        w.Dict? && entries.Keys == w.entries.Keys && forall k :: k in entries ==> Same(entries[k], w.entries[k])
      case _ => v == w
  }

  lemma ListsAgree(v: Value, w: Value)
    requires Finite(v) && Finite(w) && v.List? && w.List?
    requires |v.items| == |w.items| ==> forall i :: 0 <= i < |v.items| ==>
               (Same(v.items[i], w.items[i]) <==> Normalized(v.items[i]) == Normalized(w.items[i]))
    ensures Same(v, w) <==> Normalized(v) == Normalized(w)
  {
    var a, b := Normalized(v).items, Normalized(w).items;
    assert a == b <==> |a| == |b| && forall i :: 0 <= i < |a| ==> a[i] == b[i];
  }

  lemma NormalizedDict(v: Value)
    requires Finite(v) && v.Dict?
    ensures forall k :: k in v.entries ==> Finite(v.entries[k])
    ensures Normalized(v) == Dict(map k | k in v.entries :: Normalized(v.entries[k]))
  {
  }

  lemma DictsAgree(v: Value, w: Value)
    requires Finite(v) && Finite(w) && v.Dict? && w.Dict?
    requires forall k :: k in v.entries ==> Finite(v.entries[k])
    requires forall k :: k in w.entries ==> Finite(w.entries[k])
    requires v.entries.Keys == w.entries.Keys ==> forall k :: k in v.entries ==>
               (Same(v.entries[k], w.entries[k]) <==> Normalized(v.entries[k]) == Normalized(w.entries[k]))
    ensures Same(v, w) <==> Normalized(v) == Normalized(w)
  {
    hide Finite, Normalized;
    NormalizedDict(v);
    NormalizedDict(w);
    var a, b := Normalized(v).entries, Normalized(w).entries;
    assert a.Keys == v.entries.Keys && b.Keys == w.entries.Keys;
    if v.entries.Keys == w.entries.Keys {
      assert forall k :: k in v.entries ==> (Same(v.entries[k], w.entries[k]) <==> a[k] == b[k]);
      assert a == b <==> forall k :: k in v.entries ==> a[k] == b[k];
    }
  }

  /** Normal forms agree exactly on arguments that are equal up to the spelling of numbers. */
  lemma {:induction false} NormalizedDecidesSameness(v: Value, w: Value)
    requires Finite(v) && Finite(w)
    ensures Same(v, w) <==> Normalized(v) == Normalized(w)
  {
    if v.List? && w.List? {
      if |v.items| == |w.items| {
        forall i | 0 <= i < |v.items|
          ensures Same(v.items[i], w.items[i]) <==> Normalized(v.items[i]) == Normalized(w.items[i])
        {
          NormalizedDecidesSameness(v.items[i], w.items[i]);
        }
      }
      ListsAgree(v, w);
    } else if v.Dict? && w.Dict? {
      NormalizedDict(v);
      NormalizedDict(w);
      if v.entries.Keys == w.entries.Keys {
        forall k | k in v.entries
          ensures Same(v.entries[k], w.entries[k]) <==> Normalized(v.entries[k]) == Normalized(w.entries[k])
        {
          NormalizedDecidesSameness(v.entries[k], w.entries[k]);
        }
      }
      DictsAgree(v, w);
    }
  }

  lemma {:induction false} NormalizedIsStable(v: Value)
    requires Finite(v)
    ensures Normalized(Normalized(v)) == Normalized(v)
  {
    match v
    case List(items) =>
      forall i | 0 <= i < |items| ensures Normalized(Normalized(items[i])) == Normalized(items[i]) {
        NormalizedIsStable(items[i]);
      }
    case Dict(entries) =>
      forall k | k in entries ensures Normalized(Normalized(entries[k])) == Normalized(entries[k]) {
        NormalizedIsStable(entries[k]);
      }
    case _ =>
  }
}
