/**
 What a request reaches, observed from outside: an origin is reached when a ledger that knows nothing but
 the request refuses content that carries it. The fence and the target set are both this relation.
 */
module PrivacyReach {
  import opened Prelude
  import opened ContentPrivacy
  import opened PrivacyTables
  import P = PrivacyProtocol

  function Probe(o: Origin): Revision {
    Revision(o.tenant, "a", "1", "s", "d")
  }

  /** New content of the origin's tenant with this one origin is refused once the request stands. */
  predicate Reaches(q: Request, o: Origin) {
    Record(Enqueue(EMPTY, q.(operation := Redact)).0, Probe(o), [o], []).1 == Refused(Fence)
  }

  lemma ReachIsMatch(q: Request, o: Origin)
    ensures Reaches(q, o) <==> q.Matches(o)
  {
    var t := Enqueue(EMPTY, q.(operation := Redact)).0;
    assert Inherited(t, o.tenant, [o], []) == {o};
    assert t.jobs.Keys == {q.id};
    assert t.jobs[q.id].request.MatchesAny({o}) <==> q.Matches(o);
    assert Fenced(t, {o}) <==> q.Matches(o);
  }

  // -------------------------------------------------------- laws of reach

  /** Reach is cut off behind the request's generation, which is itself reached, and by nothing else about it. */
  lemma GenerationsAreCutOff(q: Request, o: Origin, n: nat)
    ensures Reaches(q, o.(generation := n)) <==> n <= q.through && Reaches(q, o.(generation := 0))
  {
    ReachIsMatch(q, o.(generation := n));
    ReachIsMatch(q, o.(generation := 0));
  }

  lemma LaterRequestsReachMore(q: Request, o: Origin, n: nat)
    requires q.through <= n && Reaches(q, o)
    ensures Reaches(q.(through := n), o)
  {
    ReachIsMatch(q, o);
    ReachIsMatch(q.(through := n), o);
  }

  lemma OthersAreUnreached(q: Request, o: Origin)
    requires (o.tenant, o.source, o.group) != (q.tenant, q.source, q.group)
    ensures !Reaches(q, o)
  {
    ReachIsMatch(q, o);
  }

  /** Without subjects everything of the group is reached, whoever it is about. */
  lemma UnscopedReachesTheGroup(q: Request, o: Origin)
    requires q.subjects == [] && (o.tenant, o.source, o.group) == (q.tenant, q.source, q.group)
    requires o.generation <= q.through
    ensures Reaches(q, o)
  {
    ReachIsMatch(q, o);
  }

  /** A subject scope reaches what its single subjects reach together. */
  lemma SubjectScopesUnite(q: Request, o: Origin)
    requires q.subjects != []
    ensures Reaches(q, o) <==> exists i :: 0 <= i < |q.subjects| && Reaches(q.(subjects := [q.subjects[i]]), o)
  {
    ReachIsMatch(q, o);
    forall i | 0 <= i < |q.subjects|
      ensures Reaches(q.(subjects := [q.subjects[i]]), o) <==> q.(subjects := [q.subjects[i]]).Matches(o)
    {
      ReachIsMatch(q.(subjects := [q.subjects[i]]), o);
    }
    if q.Matches(o) {
      if x :| x in q.subjects && x in o.subjects {
        var i :| 0 <= i < |q.subjects| && q.subjects[i] == x;
        assert q.(subjects := [q.subjects[i]]).Matches(o);
      } else {
        assert q.(subjects := [q.subjects[0]]).Matches(o);
      }
    }
  }

  /** One subject reaches, of what the group alone would, the personal origins that name it or name nobody. */
  lemma OneSubjectReachesItsOwn(q: Request, o: Origin, x: string)
    ensures Reaches(q.(subjects := [x]), o)
            <==> Reaches(q.(subjects := []), o) && !o.nonpersonal && (|o.subjects| == 0 || x in o.subjects)
  {
    ReachIsMatch(q.(subjects := [x]), o);
    ReachIsMatch(q.(subjects := []), o);
    if q.(subjects := [x]).Matches(o) && o.subjects != [] {
      var y :| y in [x] && y in o.subjects;
    }
    if x in o.subjects && !o.nonpersonal && q.(subjects := []).Matches(o) {
      assert x in [x];
    }
  }

  // ------------------------------------------- both operations follow it

  /** The targets of a new request are the revisions of its tenant with an origin in reach, all unfinished. */
  lemma TargetsAreReached(t: Tables, q: Request, k: Key)
    requires q.id !in t.jobs
    ensures var u := Enqueue(t, q).0;
      && q.id in u.jobs && q.id in u.targets
      && (k in u.targets[q.id]
          <==> k in t.rows && k.tenant == q.tenant && exists o :: o in t.rows[k].origins && Reaches(q, o))
      && (k in u.targets[q.id] ==> !u.targets[q.id][k])
  {
    if k in t.rows {
      forall o | o in t.rows[k].origins ensures Reaches(q, o) <==> q.Matches(o) {
        ReachIsMatch(q, o);
      }
    }
  }

  /** An origin the revision brings, or a parent of it carries. */
  ghost predicate Brings(t: Tables, r: Revision, origins: seq<Origin>, parents: seq<ParentRef>, o: Origin) {
    || o in origins
    || exists p :: p in parents && Key(r.tenant, p.0, p.1) in t.rows && o in t.rows[Key(r.tenant, p.0, p.1)].origins
  }

  ghost predicate InReach(t: Tables, r: Revision, origins: seq<Origin>, parents: seq<ParentRef>) {
    exists id, o :: id in t.jobs && t.jobs[id].request.operation.Redact? && Brings(t, r, origins, parents, o)
      && Reaches(t.jobs[id].request, o)
  }

  lemma InheritedIsBrought(t: Tables, r: Revision, origins: seq<Origin>, parents: seq<ParentRef>)
    ensures forall o :: o in Inherited(t, r.tenant, origins, parents) <==> Brings(t, r, origins, parents, o)
  {
    forall o | Brings(t, r, origins, parents, o) ensures o in Inherited(t, r.tenant, origins, parents) {
      if o !in origins {
        var p :| p in parents && Key(r.tenant, p.0, p.1) in t.rows && o in t.rows[Key(r.tenant, p.0, p.1)].origins;
        assert ParentKey(r.tenant, p) == Key(r.tenant, p.0, p.1);
      }
    }
  }

  lemma FencedIsInReach(t: Tables, r: Revision, origins: seq<Origin>, parents: seq<ParentRef>)
    ensures Fenced(t, Inherited(t, r.tenant, origins, parents)) <==> InReach(t, r, origins, parents)
  {
    var all := Inherited(t, r.tenant, origins, parents);
    InheritedIsBrought(t, r, origins, parents);
    forall id, o | id in t.jobs ensures Reaches(t.jobs[id].request, o) <==> t.jobs[id].request.Matches(o) {
      ReachIsMatch(t.jobs[id].request, o);
    }
    hide Inherited, Reaches, Brings;
  }

  /** The caller's references: not too many, each a recorded revision of the same tenant, none the revision itself. */
  predicate WellReferred(t: Tables, r: Revision, origins: seq<Origin>, parents: seq<ParentRef>) {
    && |origins| <= 4096 && |parents| <= 4096
    && forall p :: p in parents ==> p != (r.artifact, r.revision) && Key(r.tenant, p.0, p.1) in t.rows
  }

  /** The row the ledger has to hold for the revision. */
  ghost predicate Describes(t: Tables, row: Row, r: Revision, origins: seq<Origin>, parents: seq<ParentRef>) {
    && row.sink == r.sink && row.digest == r.digest
    && (forall p :: p in row.parents <==> p in parents)
    && (forall o :: o in row.origins <==> Brings(t, r, origins, parents, o))
  }

  /**
   A revision is recorded exactly when its references are good, its origins its tenant's and out of every redact
   request's reach, and its identity is unused; then its row, and nothing else, is new. A used identity is
   confirmed for the very row it stands for and refused for any other.
   */
  lemma RecordIsExact(t: Tables, r: Revision, origins: seq<Origin>, parents: seq<ParentRef>)
    ensures var (u, outcome) := Record(t, r, origins, parents);
      var admitted := WellReferred(t, r, origins, parents)
        && (forall o :: Brings(t, r, origins, parents, o) ==> o.tenant == r.tenant) && !InReach(t, r, origins, parents);
      && (outcome.Inserted? <==> admitted && r.Id() !in t.rows)
      && (outcome.Unchanged?
          <==> admitted && r.Id() in t.rows && Describes(t, t.rows[r.Id()], r, origins, parents))
      && (outcome.Inserted? ==>
            && u.order == t.order + [r.Id()] && u.rows.Keys == t.rows.Keys + {r.Id()}
            && (forall k :: k in t.rows ==> u.rows[k] == t.rows[k])
            && Describes(t, u.rows[r.Id()], r, origins, parents) && u.jobs == t.jobs && u.targets == t.targets)
      && (!outcome.Inserted? ==> u == t)
  {
    FollowedParents(t, r, parents);
    InheritedIsBrought(t, r, origins, parents);
    FencedIsInReach(t, r, origins, parents);
    var all := Inherited(t, r.tenant, origins, parents);
    var row := Row(r.sink, r.digest, all, set p | p in parents);
    if r.Id() in t.rows {
      var known := t.rows[r.Id()];
      if Describes(t, known, r, origins, parents) {
        assert known.parents == row.parents && known.origins == row.origins;
      }
    }
    hide Inherited, Brings, Fenced, InReach;
  }

  /** Why a revision is refused: the first of these that applies. */
  lemma RefusalIsExact(t: Tables, r: Revision, origins: seq<Origin>, parents: seq<ParentRef>)
    requires Record(t, r, origins, parents).1.Refused?
    ensures var why := Record(t, r, origins, parents).1.why;
      var crossed := exists o :: Brings(t, r, origins, parents, o) && o.tenant != r.tenant;
      && (why.Unbounded? <==> |origins| > 4096 || |parents| > 4096)
      && (why.InvalidParent? || why.UntrackedParent? <==>
          !why.Unbounded? && !WellReferred(t, r, origins, parents))
      && (why.CrossTenant? <==> WellReferred(t, r, origins, parents) && crossed)
      && (why.Fence? <==> WellReferred(t, r, origins, parents) && !crossed && InReach(t, r, origins, parents))
      && (why.ImmutableRevision? <==>
          WellReferred(t, r, origins, parents) && !crossed && !InReach(t, r, origins, parents))
  {
    FollowedParents(t, r, parents);
    BadReference(t, r, parents);
    InheritedIsBrought(t, r, origins, parents);
    FencedIsInReach(t, r, origins, parents);
    hide Inherited, Brings, Fenced, InReach;
  }

  lemma {:induction false} BadReference(t: Tables, r: Revision, parents: seq<ParentRef>)
    ensures var why := ParentProblem(t, r, parents);
      why.Some? ==>
        exists i :: 0 <= i < |parents|
          && (forall j :: 0 <= j < i ==>
                parents[j] != (r.artifact, r.revision) && Key(r.tenant, parents[j].0, parents[j].1) in t.rows)
          && (if parents[i] == (r.artifact, r.revision) then why.value.InvalidParent?
              else Key(r.tenant, parents[i].0, parents[i].1) !in t.rows && why.value.UntrackedParent?)
    decreases |parents|
  {
    if parents != [] && parents[0] != (r.artifact, r.revision) && ParentKey(r.tenant, parents[0]) in t.rows {
      BadReference(t, r, parents[1..]);
      var why := ParentProblem(t, r, parents[1..]);
      if why.Some? {
        var i :| 0 <= i < |parents[1..]|
          && (forall j :: 0 <= j < i ==>
                parents[1..][j] != (r.artifact, r.revision)
                && Key(r.tenant, parents[1..][j].0, parents[1..][j].1) in t.rows)
          && (if parents[1..][i] == (r.artifact, r.revision) then why.value.InvalidParent?
              else Key(r.tenant, parents[1..][i].0, parents[1..][i].1) !in t.rows && why.value.UntrackedParent?);
        forall j | 0 <= j < i + 1
          ensures parents[j] != (r.artifact, r.revision) && Key(r.tenant, parents[j].0, parents[j].1) in t.rows
        {
          if j > 0 { assert parents[j] == parents[1..][j - 1]; }
        }
        assert parents[i + 1] == parents[1..][i];
      }
    }
  }

  /** What was recorded can be recorded and published again until it is fenced, and nothing else under its name. */
  lemma RecordedAgain(t: Tables, r: Revision, origins: seq<Origin>, parents: seq<ParentRef>, digest: string)
    requires Record(t, r, origins, parents).1.Inserted?
    ensures var u := Record(t, r, origins, parents).0;
      && Record(u, r, origins, parents) == (u, Unchanged)
      && Publish(t, r, origins, parents) == Refused(Unrecorded) && Publish(u, r, origins, parents) == Unchanged
      && (digest != r.digest ==>
            Record(u, r.(digest := digest), origins, parents) == (u, Refused(ImmutableRevision)))
  {
    var u := Record(t, r, origins, parents).0;
    FollowedParents(t, r, parents);
    FollowedParents(u, r, parents);
    var changed := r.(digest := digest);
    FollowedParents(u, changed, parents);
    var all := Inherited(t, r.tenant, origins, parents);
    assert Inherited(u, r.tenant, origins, parents) == all by {
      forall p | p in parents
        ensures ParentKey(r.tenant, p) in u.rows && u.rows[ParentKey(r.tenant, p)] == t.rows[ParentKey(r.tenant, p)] { }
    }
    assert Fenced(u, all) == Fenced(t, all);
    assert u.rows[r.Id()] == Row(r.sink, r.digest, all, set p | p in parents);
    hide Inherited, Fenced, ParentProblem;
  }

  /** Enqueuing is idempotent, an identity names one request for ever, and a new job is pending and free. */
  lemma EnqueuedOnce(t: Tables, q: Request, other: Request)
    requires other.id == q.id && (q.id in t.jobs ==> t.jobs[q.id].request == q)
    ensures var (u, refused) := Enqueue(t, q);
      && refused == None && Enqueue(u, q) == (u, None)
      && (other != q ==> Enqueue(u, other) == (u, Some(ReusedRequestId)))
      && u.order == t.order && u.rows == t.rows
      && (q.id !in t.jobs ==>
            && u.jobs == t.jobs[q.id := Job(q, Pending, None, 0, None)]
            && u.targets == t.targets[q.id := u.targets[q.id]])
      && (q.id in t.jobs ==> u == t)
  {
  }

  // --------------------------------------------------------- over all runs

  /** The place a request is about: tenant, source, group and generation. */
  predicate InPlace(q: Request, o: Origin) {
    q.tenant == o.tenant && q.source == o.source && q.group == o.group && o.generation <= q.through
  }

  /**
   Once a redact request is complete, its sink has erased every recorded revision that carries an origin of
   its place: of any subject when it names none, and otherwise of a subject it names.
   */
  lemma CompletedRedactionErased(required: set<string>, leaseMs: nat, es: seq<P.Event>, id: string, k: Key, o: Origin)
    requires var t := P.Run(P.Init(required, leaseMs), es).tables;
      && id in t.jobs && t.jobs[id].request.operation.Redact? && t.jobs[id].status.Complete?
      && k in t.rows && o in t.rows[k].origins && InPlace(t.jobs[id].request, o)
      && (t.jobs[id].request.subjects == []
          || (!o.nonpersonal && exists x :: x in t.jobs[id].request.subjects && x in o.subjects))
    ensures P.Receipted(P.Run(P.Init(required, leaseMs), es), id, k)
  {
    var t := P.Run(P.Init(required, leaseMs), es).tables;
    assert t.jobs[id].request.MatchesAny(t.rows[k].origins);
    assert AncestorPath(t, [k]);
    P.RedactionComplete(required, leaseMs, es, id, [k]);
  }

  /** No revision is a target without an origin of the request's place that may concern one of its subjects. */
  lemma TargetsAreJustified(s: P.State, id: string, k: Key)
    requires P.Inv(s) && id in s.tables.jobs && id in s.tables.targets && k in s.tables.targets[id]
    ensures var q := s.tables.jobs[id].request;
      && k in s.tables.rows && k.tenant == q.tenant
      && exists o :: o in s.tables.rows[k].origins && InPlace(q, o)
           && (q.subjects == []
               || (!o.nonpersonal && (o.subjects == [] || exists x :: x in q.subjects && x in o.subjects)))
  {
    var q := s.tables.jobs[id].request;
    assert k in Scope(s.tables, q);
    var o :| o in s.tables.rows[k].origins && q.Matches(o);
    assert InPlace(q, o);
  }
}
