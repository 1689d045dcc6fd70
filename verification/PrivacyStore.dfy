/** The ledger object: four tables, updated in place, one method per transaction. */
module PrivacyStore {
  import opened Prelude
  import opened ContentPrivacy
  import opened PrivacyTables

  class SqliteContentPrivacyStore {
    var order: seq<Key>
    var rows: map<Key, Row>
    var jobs: map<string, Job>
    var targets: map<string, map<Key, bool>>
    const required: set<string>
    const leaseMs: nat

    function View(): Tables
      reads this
    {
      Tables(order, rows, jobs, targets)
    }

    constructor (surfaces: set<string>, leaseMs: nat)
      requires surfaces != {} && leaseMs >= 1000
      ensures View() == EMPTY && this.required == surfaces && this.leaseMs == leaseMs
    {
      order, rows, jobs, targets := [], map[], map[], map[];
      this.required := surfaces;
      this.leaseMs := leaseMs;
    }

    method Record(r: Revision, origins: seq<Origin>, parents: seq<ParentRef>) returns (outcome: RecordOutcome)
      modifies this
      ensures (View(), outcome) == PrivacyTables.Record(old(View()), r, origins, parents)
    {
      if |origins| > MAX_PROVENANCE || |parents| > MAX_PROVENANCE {
        return Refused(Unbounded);
      }
      var inherited := set o | o in origins;
      for i := 0 to |parents|
        invariant View() == old(View())
        invariant ParentProblem(View(), r, parents) == ParentProblem(View(), r, parents[i..])
        invariant inherited == Inherited(View(), r.tenant, origins, parents[..i])
      {
        var p := parents[i];
        assert parents[i..] == [p] + parents[i + 1..];
        if p == (r.artifact, r.revision) {
          return Refused(InvalidParent);
        }
        if ParentKey(r.tenant, p) !in rows {
          return Refused(UntrackedParent);
        }
        InheritOneMore(View(), r.tenant, origins, parents, i);
        inherited := inherited + rows[ParentKey(r.tenant, p)].origins;
      }
      assert parents[..|parents|] == parents;
      if exists o :: o in inherited && o.tenant != r.tenant {
        return Refused(CrossTenant);
      }
      var unread := jobs.Keys;
      while unread != {}
        invariant unread <= jobs.Keys && View() == old(View())
        invariant forall id :: id in jobs && id !in unread ==>
                    !(jobs[id].request.operation.Redact? && jobs[id].request.MatchesAny(inherited))
        decreases |unread|
      {
        var id :| id in unread;
        if jobs[id].request.operation.Redact? && jobs[id].request.MatchesAny(inherited) {
          return Refused(Fence);
        }
        unread := unread - {id};
      }
      var row := Row(r.sink, r.digest, inherited, set p | p in parents);
      if r.Id() in rows {
        return if rows[r.Id()] == row then Unchanged else Refused(ImmutableRevision);
      }
      order := order + [r.Id()];
      rows := rows[r.Id() := row];
      return Inserted;
    }

    /** True when the caller's synchronous writer may run inside the fence. */
    method Publish(r: Revision, origins: seq<Origin>, parents: seq<ParentRef>) returns (outcome: RecordOutcome)
      modifies this
      ensures View() == old(View()) && outcome == PrivacyTables.Publish(old(View()), r, origins, parents)
    {
      if r.Id() !in rows {
        return Refused(Unrecorded);
      }
      outcome := Record(r, origins, parents);
    }

    method Enqueue(q: Request) returns (refused: Option<Refusal>)
      modifies this
      ensures (View(), refused) == PrivacyTables.Enqueue(old(View()), q)
    {
      if q.id in jobs {
        return if jobs[q.id].request == q then None else Some(ReusedRequestId);
      }
      var found: map<Key, bool> := map[];
      var unread := rows.Keys;
      while unread != {}
        invariant unread <= rows.Keys && View() == old(View())
        invariant found == map k | k in Scope(View(), q) && k !in unread :: false
        decreases |unread|
      {
        var k :| k in unread;
        unread := unread - {k};
        if k.tenant == q.tenant && q.MatchesAny(rows[k].origins) {
          found := found[k := false];
        }
      }
      assert found == map k | k in Scope(View(), q) :: false;
      jobs := jobs[q.id := Job(q, Pending, None, 0, None)];
      targets := targets[q.id := found];
      return None;
    }

    method Claim(id: string, covered: set<string>, checkedAt: int, datedAt: int, token: Token)
        returns (outcome: ClaimOutcome)
      modifies this`jobs
      ensures (View(), outcome)
              == PrivacyTables.Claim(old(View()), id, required, covered, checkedAt, datedAt, leaseMs, token)
    {
      if id !in jobs || id !in targets {
        return UnknownRequest;
      }
      var job := jobs[id];
      if job.status.Complete? || job.leaseUntil > checkedAt {
        return Declined;
      }
      if required - covered != {} {
        jobs := jobs[id := job.(status := Blocked, reason := Some(CoverageIncomplete), lease := None, leaseUntil := 0)];
        return Declined;
      }
      var todo := WorkList(View(), id);
      if exists k :: k in Unfinished(View(), id) && Blind(View(), id, k) {
        jobs := jobs[id := job.(status := Blocked, reason := Some(SubjectScopeUnknown), lease := None,
          leaseUntil := 0)];
        return Declined;
      }
      jobs := jobs[id := job.(status := Processing, reason := None, lease := Some(token),
        leaseUntil := datedAt + leaseMs)];
      return Granted(job.request, todo);
    }

    method FinishRevision(id: string, token: Token, k: Key, checkedAt: int, datedAt: int) returns (held: bool)
      modifies this`jobs, this`targets
      ensures (View(), held) == PrivacyTables.FinishRevision(old(View()), id, token, k, checkedAt, datedAt, leaseMs)
    {
      if !Holds(View(), id, token, checkedAt) {
        return false;
      }
      if k in targets[id] {
        targets := targets[id := targets[id][k := true]];
      }
      jobs := jobs[id := jobs[id].(leaseUntil := datedAt + leaseMs)];
      return true;
    }

    method FinishJob(id: string, token: Token, reason: Option<Reason>, now: int)
      modifies this`jobs
      ensures View() == PrivacyTables.FinishJob(old(View()), id, token, reason, now)
    {
      if Holds(View(), id, token, now) {
        var complete := reason == None && Unfinished(View(), id) == {};
        jobs := jobs[id := jobs[id].(
          status := if complete then Complete else Blocked,
          reason := if reason.Some? then reason else if complete then None else Some(RetryRequired),
          lease := None, leaseUntil := 0)];
      }
    }
  }

  lemma InheritOneMore(t: Tables, tenant: string, origins: seq<Origin>, parents: seq<ParentRef>, i: nat)
    requires i < |parents| && ParentKey(tenant, parents[i]) in t.rows
    ensures Inherited(t, tenant, origins, parents[..i + 1])
            == Inherited(t, tenant, origins, parents[..i]) + t.rows[ParentKey(tenant, parents[i])].origins
  {
    assert parents[..i + 1] == parents[..i] + [parents[i]];
    assert forall p :: p in parents[..i + 1] <==> p in parents[..i] || p == parents[i];
  }
}
