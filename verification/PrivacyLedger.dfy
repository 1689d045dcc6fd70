/**
 The durable provenance ledger: revisions with inherited origins, redact/export jobs with a
 frozen target set, a fence against revoked origins and leased workers.
 One function is one committed SQL transaction; a raised exception leaves the tables as they were.
 */
module PrivacyTables {
  import opened Prelude
  import opened ContentPrivacy

  type Token = string
  type ParentRef = (string, string)

  datatype Row = Row(sink: string, digest: string, origins: set<Origin>, parents: set<ParentRef>)

  datatype Status = Pending | Processing | Blocked | Complete

  datatype Reason =
    | CoverageIncomplete | SubjectScopeUnknown | SinkUnavailable
    | RevisionConflict | SinkFailed | RetryRequired

  datatype Job = Job(
    request: Request, status: Status, lease: Option<Token>, leaseUntil: int, reason: Option<Reason>)

  /** `order` lists the revision keys by rowid, oldest first. */
  datatype Tables = Tables(
    order: seq<Key>, rows: map<Key, Row>,
    jobs: map<string, Job>, targets: map<string, map<Key, bool>>)

  const MAX_PROVENANCE: nat := 4096
  const EMPTY := Tables([], map[], map[], map[])

  datatype Refusal =
    | Unbounded | InvalidParent | UntrackedParent | CrossTenant
    | Fence | ImmutableRevision | Unrecorded | ReusedRequestId

  datatype RecordOutcome = Inserted | Unchanged | Refused(why: Refusal)

  function ParentKey(tenant: string, p: ParentRef): Key {
    Key(tenant, p.0, p.1)
  }

  function RevisionOf(k: Key, row: Row): Revision {
    Revision(k.tenant, k.artifact, k.revision, row.sink, row.digest)
  }

  // ---------------------------------------------------------------- record

  /** The first parent reference that cannot be followed, in the order the caller gave them. */
  function ParentProblem(t: Tables, r: Revision, parents: seq<ParentRef>): Option<Refusal> {
    if parents == [] then None
    else if parents[0] == (r.artifact, r.revision) then Some(InvalidParent)
    else if ParentKey(r.tenant, parents[0]) !in t.rows then Some(UntrackedParent)
    else ParentProblem(t, r, parents[1..])
  }

  function Inherited(t: Tables, tenant: string, origins: seq<Origin>, parents: seq<ParentRef>): set<Origin> {
    (set o | o in origins)
    + (set p, o | p in parents && ParentKey(tenant, p) in t.rows && o in t.rows[ParentKey(tenant, p)].origins :: o)
  }

  /** Some redact request, in whatever state, reaches one of these origins. */
  predicate Fenced(t: Tables, origins: set<Origin>) {
    exists id :: id in t.jobs && t.jobs[id].request.operation.Redact? && t.jobs[id].request.MatchesAny(origins)
  }

  function Record(t: Tables, r: Revision, origins: seq<Origin>, parents: seq<ParentRef>): (Tables, RecordOutcome) {
    if |origins| > MAX_PROVENANCE || |parents| > MAX_PROVENANCE then (t, Refused(Unbounded))
    else
      match ParentProblem(t, r, parents)
      case Some(why) => (t, Refused(why))
      case None =>
        var all := Inherited(t, r.tenant, origins, parents);
        var row := Row(r.sink, r.digest, all, set p | p in parents);
        if exists o :: o in all && o.tenant != r.tenant then (t, Refused(CrossTenant))
        else if Fenced(t, all) then (t, Refused(Fence))
        else if r.Id() in t.rows then
          (t, if t.rows[r.Id()] == row then Unchanged else Refused(ImmutableRevision))
        else
          (t.(order := t.order + [r.Id()], rows := t.rows[r.Id() := row]), Inserted)
  }

  /** Publication of an already recorded revision: the callback runs exactly when this is `Unchanged`. */
  function Publish(t: Tables, r: Revision, origins: seq<Origin>, parents: seq<ParentRef>): RecordOutcome {
    if r.Id() !in t.rows then Refused(Unrecorded) else Record(t, r, origins, parents).1
  }

  // --------------------------------------------------------------- enqueue

  /** The revisions of the request's tenant that carry a matching origin. */
  function Scope(t: Tables, q: Request): set<Key> {
    set k | k in t.rows && k.tenant == q.tenant && q.MatchesAny(t.rows[k].origins)
  }

  function Enqueue(t: Tables, q: Request): (Tables, Option<Refusal>) {
    if q.id in t.jobs then
      (t, if t.jobs[q.id].request == q then None else Some(ReusedRequestId))
    else
      (t.(jobs := t.jobs[q.id := Job(q, Pending, None, 0, None)],
          targets := t.targets[q.id := map k | k in Scope(t, q) :: false]), None)
  }

  // ----------------------------------------------------------------- claim

  function Unfinished(t: Tables, id: string): set<Key>
    requires id in t.targets
  {
    set k | k in t.targets[id] && !t.targets[id][k]
  }

  function NewestFirst(order: seq<Key>, want: set<Key>): seq<Key> {
    if order == [] then []
    else
      var k := order[|order| - 1];
      (if k in want then [k] else []) + NewestFirst(order[..|order| - 1], want)
  }

  function InsertByArtifact(k: Key, ks: seq<Key>): seq<Key> {
    if ks != [] && Less(ks[0].artifact, k.artifact) then [ks[0]] + InsertByArtifact(k, ks[1..])
    else [k] + ks
  }

  function ByArtifact(ks: seq<Key>): seq<Key> {
    if ks == [] then [] else InsertByArtifact(ks[0], ByArtifact(ks[1..]))
  }

  /** Unfinished targets, by artifact and within one artifact newest first. */
  function WorkList(t: Tables, id: string): seq<Key>
    requires id in t.targets
  {
    ByArtifact(NewestFirst(t.order, Unfinished(t, id)))
  }

  /** A target of a subject-scoped request that is reached through an origin without subjects. */
  predicate Blind(t: Tables, id: string, k: Key) {
    id in t.jobs && k in t.rows && exists o :: o in t.rows[k].origins && t.jobs[id].request.ReachesBlindly(o)
  }

  datatype ClaimOutcome = UnknownRequest | Declined | Granted(request: Request, todo: seq<Key>)

  /** The clock is read once to test the previous lease and once to date the new one. */
  function Claim(t: Tables, id: string, required: set<string>, covered: set<string>,
                 checkedAt: int, datedAt: int, leaseMs: nat, token: Token): (Tables, ClaimOutcome) {
    if id !in t.jobs || id !in t.targets then (t, UnknownRequest)
    else
      var job := t.jobs[id];
      if job.status.Complete? || job.leaseUntil > checkedAt then (t, Declined)
      else if required - covered != {} then
        (t.(jobs := t.jobs[id := job.(status := Blocked, reason := Some(CoverageIncomplete), lease := None,
          leaseUntil := 0)]), Declined)
      else if exists k :: k in Unfinished(t, id) && Blind(t, id, k) then
        (t.(jobs := t.jobs[id := job.(status := Blocked, reason := Some(SubjectScopeUnknown), lease := None,
          leaseUntil := 0)]), Declined)
      else
        (t.(jobs := t.jobs[id := job.(status := Processing, reason := None, lease := Some(token),
          leaseUntil := datedAt + leaseMs)]),
         Granted(job.request, WorkList(t, id)))
  }

  /** Does `token` hold an unexpired lease on the request? */
  predicate Holds(t: Tables, id: string, token: Token, now: int) {
    id in t.jobs && id in t.targets && t.jobs[id].lease == Some(token) && t.jobs[id].leaseUntil > now
  }

  function FinishRevision(t: Tables, id: string, token: Token, k: Key,
                          checkedAt: int, datedAt: int, leaseMs: nat): (Tables, bool) {
    if !Holds(t, id, token, checkedAt) then (t, false)
    else
      (t.(targets := if k in t.targets[id] then t.targets[id := t.targets[id][k := true]] else t.targets,
          jobs := t.jobs[id := t.jobs[id].(leaseUntil := datedAt + leaseMs)]), true)
  }

  function FinishJob(t: Tables, id: string, token: Token, reason: Option<Reason>, now: int): Tables {
    if !Holds(t, id, token, now) then t
    else
      var complete := reason == None && Unfinished(t, id) == {};
      t.(jobs := t.jobs[id := t.jobs[id].(
           status := if complete then Complete else Blocked,
           reason := if reason.Some? then reason else if complete then None else Some(RetryRequired),
           lease := None, leaseUntil := 0)])
  }

  // ------------------------------------------------------------ invariants

  ghost predicate NoDuplicates<T>(s: seq<T>) {
    forall i, j :: 0 <= i < j < |s| ==> s[i] != s[j]
  }

  /** Recorded revisions form a DAG in recording order, one tenant a component, origins growing along it. */
  ghost predicate Provenance(t: Tables) {
    && NoDuplicates(t.order)
    && (forall k :: k in t.order <==> k in t.rows)
    && (forall k, o :: k in t.rows && o in t.rows[k].origins ==> o.tenant == k.tenant)
    && (forall k, p :: k in t.rows && p in t.rows[k].parents ==>
          && ParentKey(k.tenant, p) in t.rows
          && t.rows[ParentKey(k.tenant, p)].origins <= t.rows[k].origins)
    && (forall i, p :: 0 <= i < |t.order| && p in t.rows[t.order[i]].parents ==>
        ParentKey(t.order[i].tenant, p) in t.order[..i])
  }

  /** Target sets are frozen: exact for redact requests, sound for exports. */
  ghost predicate Scoped(t: Tables) {
    && t.jobs.Keys == t.targets.Keys
    && (forall id :: id in t.jobs ==>
          && t.jobs[id].request.id == id
          && t.targets[id].Keys <= Scope(t, t.jobs[id].request)
          && (t.jobs[id].request.operation.Redact? ==> t.targets[id].Keys == Scope(t, t.jobs[id].request)))
  }

  /** What the lifecycle of a job never contradicts. */
  ghost predicate Settled(t: Tables) {
    forall id :: id in t.jobs && id in t.targets ==>
      && (t.jobs[id].status.Complete? ==> t.jobs[id].lease == None && Unfinished(t, id) == {})
      && (forall k :: k in t.targets[id] && Blind(t, id, k) ==>
            !t.targets[id][k] && t.jobs[id].lease == None && !t.jobs[id].status.Complete?)
  }

  ghost predicate Valid(t: Tables) {
    Provenance(t) && Scoped(t) && Settled(t)
  }

  // -------------------------------------------------- transactions keep it

  lemma {:induction false} FollowedParents(t: Tables, r: Revision, parents: seq<ParentRef>)
    ensures ParentProblem(t, r, parents) == None <==>
            forall p :: p in parents ==> p != (r.artifact, r.revision) && ParentKey(r.tenant, p) in t.rows
  {
    if parents != [] {
      FollowedParents(t, r, parents[1..]);
      assert parents == [parents[0]] + parents[1..];
      assert forall p :: p in parents <==> p == parents[0] || p in parents[1..];
    }
  }

  /** Fencing is what freezes the scope of a redact request: an insertion never enlarges it. */
  lemma RecordKeepsScopes(t: Tables, r: Revision, origins: seq<Origin>, parents: seq<ParentRef>, q: Request)
    requires Record(t, r, origins, parents).1 == Inserted
    ensures var t' := Record(t, r, origins, parents).0;
      && Scope(t, q) <= Scope(t', q)
      && (q.operation.Redact? && q.id in t.jobs && t.jobs[q.id].request == q ==> Scope(t', q) == Scope(t, q))
  {
    var t' := Record(t, r, origins, parents).0;
    var all := Inherited(t, r.tenant, origins, parents);
    assert t'.rows == t.rows[r.Id() := Row(r.sink, r.digest, all, set p | p in parents)];
    if q.operation.Redact? && q.id in t.jobs && t.jobs[q.id].request == q {
      assert !q.MatchesAny(all);
      forall k | k in Scope(t', q) ensures k in Scope(t, q) {
        assert k != r.Id();
      }
    }
  }

  /** Appending a row whose parents are recorded and whose origins include theirs keeps the DAG. */
  lemma AppendKeepsProvenance(t: Tables, t': Tables, k: Key, row: Row)
    requires Provenance(t) && k !in t.rows
    requires t'.order == t.order + [k] && t'.rows == t.rows[k := row]
    requires forall o :: o in row.origins ==> o.tenant == k.tenant
    requires forall p :: p in row.parents ==>
               ParentKey(k.tenant, p) in t.rows && t.rows[ParentKey(k.tenant, p)].origins <= row.origins
    ensures Provenance(t')
  {
    assert forall x :: x in t'.order <==> x in t.order || x == k;
    forall x, p | x in t'.rows && p in t'.rows[x].parents
      ensures ParentKey(x.tenant, p) in t'.rows && t'.rows[ParentKey(x.tenant, p)].origins <= t'.rows[x].origins
    {
      assert ParentKey(x.tenant, p) in t.rows;
    }
    forall i, p | 0 <= i < |t'.order| && p in t'.rows[t'.order[i]].parents
      ensures ParentKey(t'.order[i].tenant, p) in t'.order[..i]
    {
      assert t'.order[..i] == t.order[..i];
      if i < |t.order| {
        assert t'.order[i] == t.order[i] && t.order[i] in t.order;
      } else {
        assert t.order[..i] == t.order;
      }
    }
  }

  lemma RecordKeepsProvenance(t: Tables, r: Revision, origins: seq<Origin>, parents: seq<ParentRef>)
    requires Provenance(t)
    ensures Provenance(Record(t, r, origins, parents).0)
  {
    if Record(t, r, origins, parents).1 == Inserted {
      FollowedParents(t, r, parents);
      var row := Row(r.sink, r.digest, Inherited(t, r.tenant, origins, parents), set p | p in parents);
      hide Provenance;
      AppendKeepsProvenance(t, Record(t, r, origins, parents).0, r.Id(), row);
    }
  }

  lemma RecordKeeps(t: Tables, r: Revision, origins: seq<Origin>, parents: seq<ParentRef>)
    requires Valid(t)
    ensures Valid(Record(t, r, origins, parents).0)
  {
    var (t', outcome) := Record(t, r, origins, parents);
    RecordKeepsProvenance(t, r, origins, parents);
    if outcome == Inserted {
      forall id | id in t'.jobs
        ensures t'.targets[id].Keys <= Scope(t', t'.jobs[id].request)
        ensures t'.jobs[id].request.operation.Redact? ==> t'.targets[id].Keys == Scope(t', t'.jobs[id].request)
      {
        RecordKeepsScopes(t, r, origins, parents, t.jobs[id].request);
      }
      forall id, k | id in t'.jobs && k in t'.targets[id] && Blind(t', id, k) ensures Blind(t, id, k) {
        assert k in Scope(t, t.jobs[id].request);
      }
      forall id | id in t'.jobs ensures Unfinished(t', id) == Unfinished(t, id) { }
    }
  }

  lemma EnqueueKeeps(t: Tables, q: Request)
    requires Valid(t)
    ensures Valid(Enqueue(t, q).0)
  {
    var t' := Enqueue(t, q).0;
    forall id | id in t'.jobs ensures Scope(t', t'.jobs[id].request) == Scope(t, t'.jobs[id].request) { }
    forall id, k | id in t.jobs && Blind(t', id, k) ensures Blind(t, id, k) { }
    forall id | id in t.jobs ensures Unfinished(t', id) == Unfinished(t, id) { }
  }

  /** Job rows change, revisions and requests do not: only `Settled` is at stake. */
  lemma JobUpdateKeepsScopes(t: Tables, t': Tables)
    requires Valid(t)
    requires t'.order == t.order && t'.rows == t.rows && t'.jobs.Keys == t.jobs.Keys
    requires t'.targets.Keys == t.targets.Keys
    requires forall id :: id in t.jobs ==>
               t'.jobs[id].request == t.jobs[id].request && t'.targets[id].Keys == t.targets[id].Keys
    ensures Provenance(t') && Scoped(t')
    ensures forall id, k :: Blind(t', id, k) <==> Blind(t, id, k)
  {
    forall id | id in t'.jobs ensures Scope(t', t'.jobs[id].request) == Scope(t, t'.jobs[id].request) { }
  }

  /** Replacing one job row is safe when the new row neither completes early nor leases a blind target. */
  lemma ReplaceJobKeeps(t: Tables, id: string, job: Job)
    requires Valid(t) && id in t.jobs && job.request == t.jobs[id].request
    requires job.status.Complete? ==> job.lease == None && Unfinished(t, id) == {}
    requires job.lease.Some? ==> forall k :: k in Unfinished(t, id) ==> !Blind(t, id, k)
    ensures Valid(t.(jobs := t.jobs[id := job]))
  {
    var t' := t.(jobs := t.jobs[id := job]);
    JobUpdateKeepsScopes(t, t');
    assert Settled(t);
    hide Provenance, Scoped, Blind;
    forall i | i in t.jobs ensures Unfinished(t', i) == Unfinished(t, i) { }
    forall k | k in t.targets[id] && Blind(t, id, k) ensures k in Unfinished(t, id) { }
  }

  lemma ClaimKeeps(t: Tables, id: string, required: set<string>, covered: set<string>,
                   checkedAt: int, datedAt: int, leaseMs: nat, token: Token)
    requires Valid(t)
    ensures Valid(Claim(t, id, required, covered, checkedAt, datedAt, leaseMs, token).0)
  {
    hide Valid, Blind, Unfinished;
    var t' := Claim(t, id, required, covered, checkedAt, datedAt, leaseMs, token).0;
    if t' != t {
      ReplaceJobKeeps(t, id, t'.jobs[id]);
    }
  }

  lemma MarkTargetKeeps(t: Tables, id: string, k: Key)
    requires Valid(t) && id in t.jobs && t.jobs[id].lease.Some? && k in t.targets[id]
    ensures Valid(t.(targets := t.targets[id := t.targets[id][k := true]]))
  {
    var t' := t.(targets := t.targets[id := t.targets[id][k := true]]);
    JobUpdateKeepsScopes(t, t');
    hide Provenance, Scoped;
    MarkTargetSettled(t, t', id, k);
  }

  lemma MarkTargetSettled(t: Tables, t': Tables, id: string, k: Key)
    requires Settled(t) && id in t.jobs && t.jobs[id].lease.Some? && id in t.targets && k in t.targets[id]
    requires t' == t.(targets := t.targets[id := t.targets[id][k := true]])
    ensures Settled(t')
  {
    forall i | i in t'.jobs && i in t'.targets
      ensures t'.jobs[i].status.Complete? ==> t'.jobs[i].lease == None && Unfinished(t', i) == {}
      ensures forall j :: j in t'.targets[i] && Blind(t', i, j) ==>
                !t'.targets[i][j] && t'.jobs[i].lease == None && !t'.jobs[i].status.Complete?
    {
      if i != id {
        assert Unfinished(t', i) == Unfinished(t, i);
        assert forall j :: Blind(t', i, j) <==> Blind(t, i, j);
      } else {
        assert forall j :: j in t.targets[id] ==> (Blind(t', id, j) <==> Blind(t, id, j));
      }
    }
  }

  lemma LeasedIsSighted(t: Tables, id: string)
    requires Valid(t) && id in t.jobs && t.jobs[id].lease.Some?
    ensures id in t.targets && !t.jobs[id].status.Complete?
    ensures forall k :: k in Unfinished(t, id) ==> !Blind(t, id, k)
  {
  }

  lemma FinishRevisionKeeps(t: Tables, id: string, token: Token, k: Key, checkedAt: int, datedAt: int, leaseMs: nat)
    requires Valid(t)
    ensures Valid(FinishRevision(t, id, token, k, checkedAt, datedAt, leaseMs).0)
  {
    if Holds(t, id, token, checkedAt) {
      hide Valid, Blind;
      var t1 := t;
      if k in t.targets[id] {
        MarkTargetKeeps(t, id, k);
        t1 := t.(targets := t.targets[id := t.targets[id][k := true]]);
      }
      LeasedIsSighted(t1, id);
      ReplaceJobKeeps(t1, id, t.jobs[id].(leaseUntil := datedAt + leaseMs));
    }
  }

  lemma FinishJobKeeps(t: Tables, id: string, token: Token, reason: Option<Reason>, now: int)
    requires Valid(t)
    ensures Valid(FinishJob(t, id, token, reason, now))
  {
    if Holds(t, id, token, now) {
      ReplaceJobKeeps(t, id, FinishJob(t, id, token, reason, now).jobs[id]);
    }
  }

  // -------------------------------------------------- what is never undone

  /** Revisions, requests, target sets and finished work survive every later transaction. */
  ghost predicate Extends(t: Tables, t': Tables) {
    && (forall k :: k in t.rows ==> k in t'.rows && t'.rows[k] == t.rows[k])
    && (forall id :: id in t.jobs ==> id in t'.jobs && t'.jobs[id].request == t.jobs[id].request)
    && (forall id :: id in t.jobs && t.jobs[id].status.Complete? ==> t'.jobs[id] == t.jobs[id])
    && (forall id :: id in t.targets ==> id in t'.targets && t'.targets[id].Keys == t.targets[id].Keys)
    && (forall id, k :: id in t.targets && k in t.targets[id] && t.targets[id][k] ==> t'.targets[id][k])
  }

  lemma ExtendsIsTransitive(t: Tables, u: Tables, v: Tables)
    requires Extends(t, u) && Extends(u, v)
    ensures Extends(t, v)
  {
    forall id, k | id in t.targets && k in t.targets[id] && t.targets[id][k] ensures v.targets[id][k] {
      assert u.targets[id][k];
    }
  }

  lemma RecordExtends(t: Tables, r: Revision, origins: seq<Origin>, parents: seq<ParentRef>)
    ensures Extends(t, Record(t, r, origins, parents).0)
  {
  }

  lemma EnqueueExtends(t: Tables, q: Request)
    requires t.jobs.Keys == t.targets.Keys
    ensures Extends(t, Enqueue(t, q).0)
  {
  }

  lemma ClaimExtends(t: Tables, id: string, required: set<string>, covered: set<string>,
                     checkedAt: int, datedAt: int, leaseMs: nat, token: Token)
    ensures Extends(t, Claim(t, id, required, covered, checkedAt, datedAt, leaseMs, token).0)
  {
  }

  lemma FinishRevisionExtends(t: Tables, id: string, token: Token, k: Key, checkedAt: int, datedAt: int, leaseMs: nat)
    requires Valid(t)
    ensures Extends(t, FinishRevision(t, id, token, k, checkedAt, datedAt, leaseMs).0)
  {
  }

  lemma FinishJobExtends(t: Tables, id: string, token: Token, reason: Option<Reason>, now: int)
    requires Valid(t)
    ensures Extends(t, FinishJob(t, id, token, reason, now))
  {
  }

  // ---------------------------------------------------- what Valid implies

  ghost predicate IsParent(t: Tables, child: Key, parent: Key) {
    child in t.rows && exists p :: p in t.rows[child].parents && parent == ParentKey(child.tenant, p)
  }

  /** `path` leads from a revision to one of its ancestors, parent by parent. */
  ghost predicate AncestorPath(t: Tables, path: seq<Key>) {
    && path != [] && path[0] in t.rows
    && (|path| > 1 ==> IsParent(t, path[0], path[1]) && AncestorPath(t, path[1..]))
  }

  lemma ParentIsInherited(t: Tables, child: Key, parent: Key)
    requires Provenance(t) && IsParent(t, child, parent)
    ensures parent in t.rows && parent.tenant == child.tenant
    ensures t.rows[parent].origins <= t.rows[child].origins
  {
  }

  /** Origins are inherited along every chain of parents, however long. */
  lemma {:induction false} AncestorsAreInherited(t: Tables, path: seq<Key>)
    requires Provenance(t) && AncestorPath(t, path)
    ensures path[|path| - 1] in t.rows && path[|path| - 1].tenant == path[0].tenant
    ensures t.rows[path[|path| - 1]].origins <= t.rows[path[0]].origins
  {
    if |path| > 1 {
      ParentIsInherited(t, path[0], path[1]);
      AncestorsAreInherited(t, path[1..]);
    }
  }

  lemma ParentIsEarlier(t: Tables, child: nat, parent: Key) returns (at: nat)
    requires Provenance(t) && child < |t.order| && IsParent(t, t.order[child], parent)
    ensures at < child && t.order[at] == parent
  {
    var p :| p in t.rows[t.order[child]].parents && parent == ParentKey(t.order[child].tenant, p);
    assert parent in t.order[..child];
    at :| 0 <= at < child && t.order[at] == parent;
  }

  /** No revision is its own ancestor: every proper ancestor was recorded strictly earlier. */
  lemma {:induction false} ProvenanceIsAcyclic(t: Tables, path: seq<Key>, first: nat) returns (last: nat)
    requires Provenance(t) && AncestorPath(t, path)
    requires first < |t.order| && t.order[first] == path[0]
    ensures last < |t.order| && t.order[last] == path[|path| - 1]
    ensures |path| > 1 ==> last < first && path[|path| - 1] != path[0]
    decreases |path|
  {
    last := first;
    if |path| > 1 {
      var next := ParentIsEarlier(t, first, path[1]);
      last := ProvenanceIsAcyclic(t, path[1..], next);
    }
  }

  // ------------------------------------------------------------- work list

  ghost predicate Earlier(order: seq<Key>, a: Key, b: Key) {
    exists i, j :: 0 <= i < j < |order| && order[i] == a && order[j] == b
  }

  /** `a` is handled before `b`: by artifact, and within one artifact the later recorded one first. */
  ghost predicate Precedes(order: seq<Key>, a: Key, b: Key) {
    Less(a.artifact, b.artifact) || (a.artifact == b.artifact && Earlier(order, b, a))
  }

  ghost predicate Sorted(order: seq<Key>, ks: seq<Key>) {
    forall i, j :: 0 <= i < j < |ks| ==> Precedes(order, ks[i], ks[j])
  }

  lemma {:induction false} NewestFirstIsOrdered(whole: seq<Key>, n: nat, want: set<Key>)
    requires NoDuplicates(whole) && n <= |whole|
    ensures var ks := NewestFirst(whole[..n], want);
      && (forall k :: k in ks <==> k in whole[..n] && k in want)
      && (forall i, j :: 0 <= i < j < |ks| ==> Earlier(whole, ks[j], ks[i]))
  {
    if n > 0 {
      assert whole[..n][..n - 1] == whole[..n - 1];
      NewestFirstIsOrdered(whole, n - 1, want);
      var tail := NewestFirst(whole[..n - 1], want);
      forall k | k in tail ensures Earlier(whole, k, whole[n - 1]) {
        var i :| 0 <= i < n - 1 && whole[..n - 1][i] == k;
        assert whole[i] == k;
      }
      var ks := NewestFirst(whole[..n], want);
      forall i, j | 0 <= i < j < |ks| ensures Earlier(whole, ks[j], ks[i]) {
        if ks == [whole[n - 1]] + tail {
          assert ks[j] == tail[j - 1] && ks[j] in tail;
          if i > 0 { assert ks[i] == tail[i - 1]; }
        }
      }
      assert forall k :: k in whole[..n] <==> k in whole[..n - 1] || k == whole[n - 1];
    }
  }

  lemma {:induction false} InsertByArtifactKeepsSorted(order: seq<Key>, k: Key, ks: seq<Key>)
    requires Sorted(order, ks)
    requires forall x :: x in ks ==> Earlier(order, x, k)
    ensures Sorted(order, InsertByArtifact(k, ks))
    ensures forall x :: x in InsertByArtifact(k, ks) <==> x == k || x in ks
  {
    var out := InsertByArtifact(k, ks);
    if ks != [] && Less(ks[0].artifact, k.artifact) {
      InsertByArtifactKeepsSorted(order, k, ks[1..]);
      assert ks == [ks[0]] + ks[1..];
      forall x | x in InsertByArtifact(k, ks[1..]) ensures Precedes(order, ks[0], x) {
        if x != k {
          var j :| 0 <= j < |ks[1..]| && ks[1..][j] == x;
          assert ks[j + 1] == x;
        }
      }
    } else {
      forall j | 0 <= j < |ks| ensures Precedes(order, k, ks[j]) {
        assert ks[j] in ks;
        LessIsTotal(ks[0].artifact, k.artifact);
        if j > 0 {
          assert Precedes(order, ks[0], ks[j]);
          if Less(k.artifact, ks[0].artifact) && Less(ks[0].artifact, ks[j].artifact) {
            LessIsTransitive(k.artifact, ks[0].artifact, ks[j].artifact);
          }
        }
      }
    }
  }

  lemma {:induction false} ByArtifactSorts(order: seq<Key>, ks: seq<Key>)
    requires forall i, j :: 0 <= i < j < |ks| ==> Earlier(order, ks[j], ks[i])
    ensures Sorted(order, ByArtifact(ks))
    ensures forall x :: x in ByArtifact(ks) <==> x in ks
  {
    if ks != [] {
      var tail := ks[1..];
      assert forall i :: 0 <= i < |tail| ==> tail[i] == ks[i + 1];
      ByArtifactSorts(order, tail);
      forall x | x in ByArtifact(tail) ensures Earlier(order, x, ks[0]) {
        var i :| 0 <= i < |tail| && tail[i] == x;
      }
      InsertByArtifactKeepsSorted(order, ks[0], ByArtifact(tail));
      assert ks == [ks[0]] + tail;
    }
  }

  /**
   A worker is handed every unfinished target exactly once, ordered by artifact, and inside one
   artifact no revision is handled before a revision recorded after it.
   */
  lemma WorkListIsExact(t: Tables, id: string)
    requires Valid(t) && id in t.jobs
    ensures Sorted(t.order, WorkList(t, id)) && NoDuplicates(WorkList(t, id))
    ensures forall k :: k in WorkList(t, id) <==> k in Unfinished(t, id)
  {
    var want := Unfinished(t, id);
    assert t.order[..|t.order|] == t.order;
    NewestFirstIsOrdered(t.order, |t.order|, want);
    ByArtifactSorts(t.order, NewestFirst(t.order, want));
    var ks := WorkList(t, id);
    forall i, j | 0 <= i < j < |ks| ensures ks[i] != ks[j] {
      assert Precedes(t.order, ks[i], ks[j]);
      LessIsIrreflexive(ks[i].artifact);
    }
  }
}
