/**
 Every run of the ledger: writers, requesters and any number of leased workers whose steps
 interleave freely. A worker's local state is what `process` keeps between its awaits.
 */
module PrivacyProtocol {
  import opened Prelude
  import opened ContentPrivacy
  import opened PrivacyTables

  datatype Phase = Applying | Marking | Closing(reason: Option<Reason>)

  datatype Worker = Worker(id: string, request: Request, todo: seq<Revision>, phase: Phase)

  /** What was attested when a lease token was issued. */
  datatype Grant = Grant(id: string, covered: set<string>)

  /** `grants` and `receipts` are history: every token issued, every `complete` a sink returned. */
  datatype State = State(
    tables: Tables, required: set<string>, leaseMs: nat,
    workers: map<Token, Worker>, grants: map<Token, Grant>, receipts: set<(Token, Revision)>)

  datatype Outcome = Applied | Conflicted | NoSink | Raised

  datatype Event =
    | RecordRevision(r: Revision, origins: seq<Origin>, parents: seq<ParentRef>)
    | EnqueueRequest(q: Request)
    | ClaimJob(id: string, covered: set<string>, checkedAt: int, datedAt: int, token: Token)
    | ApplySink(token: Token, outcome: Outcome)
    | MarkRevision(token: Token, checkedAt: int, datedAt: int)
    | WorkerFails(token: Token)
    | CloseJob(token: Token, now: int)
    | Crash(token: Token)

  function Init(required: set<string>, leaseMs: nat): State {
    State(EMPTY, required, leaseMs, map[], map[], {})
  }

  function RevisionsOf(t: Tables, ks: seq<Key>): seq<Revision> {
    if ks == [] then []
    else (if ks[0] in t.rows then [RevisionOf(ks[0], t.rows[ks[0]])] else []) + RevisionsOf(t, ks[1..])
  }

  function DoClaim(s: State, id: string, covered: set<string>, checkedAt: int, datedAt: int, token: Token): State {
    var (t, outcome) := Claim(s.tables, id, s.required, covered, checkedAt, datedAt, s.leaseMs, token);
    if outcome.Granted? then
      s.(tables := t,
         workers := s.workers[token := Worker(id, outcome.request, RevisionsOf(s.tables, outcome.todo), Applying)],
         grants := s.grants[token := Grant(id, covered)])
    else s.(tables := t)
  }

  function DoApply(s: State, token: Token, outcome: Outcome): State
    requires token in s.workers
  {
    var w := s.workers[token];
    if !w.phase.Applying? || w.todo == [] then s
    else
      match outcome
      case Applied =>
        s.(workers := s.workers[token := w.(phase := Marking)], receipts := s.receipts + {(token, w.todo[0])})
      case Conflicted => s.(workers := s.workers[token := w.(phase := Closing(Some(RevisionConflict)))])
      case NoSink => s.(workers := s.workers[token := w.(phase := Closing(Some(SinkUnavailable)))])
      case Raised => s.(workers := s.workers[token := w.(phase := Closing(Some(SinkFailed)))])
  }

  function DoMark(s: State, token: Token, checkedAt: int, datedAt: int): State
    requires token in s.workers
  {
    var w := s.workers[token];
    if !w.phase.Marking? || w.todo == [] then s
    else
      var (t, held) := FinishRevision(s.tables, w.id, token, w.todo[0].Id(), checkedAt, datedAt, s.leaseMs);
      s.(tables := t,
         workers := if held then s.workers[token := w.(todo := w.todo[1..],
           phase := Applying)] else s.workers - {token})
  }

  function DoClose(s: State, token: Token, now: int): State
    requires token in s.workers
  {
    var w := s.workers[token];
    if w.phase.Closing? || (w.phase.Applying? && w.todo == []) then
      var reason := if w.phase.Closing? then w.phase.reason else None;
      s.(tables := FinishJob(s.tables, w.id, token, reason, now), workers := s.workers - {token})
    else s
  }

  /** An event whose worker is gone, or whose token is not fresh, cannot happen and changes nothing. */
  function Step(s: State, e: Event): State {
    match e
    case RecordRevision(r, origins, parents) => s.(tables := Record(s.tables, r, origins, parents).0)
    case EnqueueRequest(q) => s.(tables := Enqueue(s.tables, q).0)
    case ClaimJob(id, covered, checkedAt, datedAt, token) =>
      if token in s.grants then s else DoClaim(s, id, covered, checkedAt, datedAt, token)
    case ApplySink(token, outcome) => if token in s.workers then DoApply(s, token, outcome) else s
    case MarkRevision(token, checkedAt, datedAt) =>
      if token in s.workers then DoMark(s, token, checkedAt, datedAt) else s
    case WorkerFails(token) =>
      if token in s.workers && !s.workers[token].phase.Closing?
      then s.(workers := s.workers[token := s.workers[token].(phase := Closing(Some(SinkFailed)))]) else s
    case CloseJob(token, now) => if token in s.workers then DoClose(s, token, now) else s
    case Crash(token) => s.(workers := s.workers - {token})
  }

  function Run(s: State, es: seq<Event>): State
    decreases |es|
  {
    if es == [] then s else Run(Step(s, es[0]), es[1..])
  }

  // -------------------------------------------------------------- invariant

  /** Some covering claim on `id` had its sink return `complete` for exactly the recorded revision `k`. */
  ghost predicate Receipted(s: State, id: string, k: Key) {
    k in s.tables.rows && exists token ::
      && token in s.grants && s.grants[token].id == id && s.required <= s.grants[token].covered
      && (token, RevisionOf(k, s.tables.rows[k])) in s.receipts
  }

  ghost predicate TodoIsExact(t: Tables, id: string, todo: seq<Revision>) {
    id in t.targets && forall r :: r in todo ==>
      r.Id() in t.rows && RevisionOf(r.Id(), t.rows[r.Id()]) == r && r.Id() in t.targets[id]
  }

  ghost predicate WorkerOk(s: State, token: Token, w: Worker) {
    && token in s.grants && s.grants[token].id == w.id
    && w.id in s.tables.jobs
    && TodoIsExact(s.tables, w.id, w.todo)
    && (w.phase.Marking? ==> w.todo != [] && (token, w.todo[0]) in s.receipts)
    && (w.phase.Closing? ==> w.phase.reason.Some?)
  }

  ghost predicate WorkersOk(s: State) {
    forall token :: token in s.workers ==> WorkerOk(s, token, s.workers[token])
  }

  ghost predicate GrantsOk(s: State) {
    forall token :: token in s.grants ==> s.required <= s.grants[token].covered && s.grants[token].id in s.tables.jobs
  }

  ghost predicate LeasesOk(s: State) {
    forall id :: id in s.tables.jobs && s.tables.jobs[id].lease.Some? ==>
      s.tables.jobs[id].lease.value in s.grants && s.grants[s.tables.jobs[id].lease.value].id == id
  }

  ghost predicate Earned(s: State) {
    forall id, k :: id in s.tables.targets && k in s.tables.targets[id] && s.tables.targets[id][k] ==>
      Receipted(s, id, k)
  }

  ghost predicate Inv(s: State) {
    Valid(s.tables) && WorkersOk(s) && GrantsOk(s) && LeasesOk(s) && Earned(s)
  }

  /** What no later step takes back. */
  ghost predicate Later(s: State, s': State) {
    && s'.required == s.required && s'.leaseMs == s.leaseMs
    && s.receipts <= s'.receipts
    && (forall token :: token in s.grants ==> token in s'.grants && s'.grants[token] == s.grants[token])
    && Extends(s.tables, s'.tables)
  }

  lemma LaterIsTransitive(s: State, u: State, v: State)
    requires Later(s, u) && Later(u, v)
    ensures Later(s, v)
  {
    ExtendsIsTransitive(s.tables, u.tables, v.tables);
  }

  lemma RevisionsOfIsExact(t: Tables, ks: seq<Key>)
    ensures forall r :: r in RevisionsOf(t, ks) ==>
              r.Id() in ks && r.Id() in t.rows && RevisionOf(r.Id(), t.rows[r.Id()]) == r
    ensures (forall k :: k in ks ==> k in t.rows) ==>
              |RevisionsOf(t, ks)| == |ks| && forall i :: 0 <= i < |ks| ==> RevisionsOf(t, ks)[i].Id() == ks[i]
  {
    if ks != [] {
      RevisionsOfIsExact(t, ks[1..]);
    }
  }

  lemma ReceiptsSurvive(s: State, s': State, id: string, k: Key)
    requires Later(s, s') && Receipted(s, id, k)
    ensures Receipted(s', id, k)
  {
    var token :| token in s.grants && s.grants[token].id == id && s.required <= s.grants[token].covered
                 && (token, RevisionOf(k, s.tables.rows[k])) in s.receipts;
    assert token in s'.grants;
  }

  lemma WorkerSurvives(s: State, s': State, token: Token, w: Worker)
    requires Later(s, s') && WorkerOk(s, token, w)
    ensures WorkerOk(s', token, w)
  {
  }

  /** A step that issues no lease, marks no target and keeps the other workers preserves the rest of the invariant. */
  lemma QuietStep(s: State, s': State)
    requires Inv(s) && Later(s, s') && Valid(s'.tables)
    requires s'.grants == s.grants
    requires forall token :: token in s'.workers ==>
               (token in s.workers && s'.workers[token] == s.workers[token]) || WorkerOk(s', token, s'.workers[token])
    requires forall id :: id in s'.tables.jobs && s'.tables.jobs[id].lease.Some? ==>
               id in s.tables.jobs && s'.tables.jobs[id].lease == s.tables.jobs[id].lease
    requires forall id, k :: id in s'.tables.targets && k in s'.tables.targets[id] && s'.tables.targets[id][k] ==>
               Receipted(s', id, k) || (id in s.tables.targets && k in s.tables.targets[id] && s.tables.targets[id][k])
    ensures Inv(s')
  {
    hide Valid;
    forall token | token in s'.workers ensures WorkerOk(s', token, s'.workers[token]) {
      if token in s.workers && s'.workers[token] == s.workers[token] {
        WorkerSurvives(s, s', token, s.workers[token]);
      }
    }
    forall id, k | id in s'.tables.targets && k in s'.tables.targets[id] && s'.tables.targets[id][k]
      ensures Receipted(s', id, k)
    {
      if !Receipted(s', id, k) {
        ReceiptsSurvive(s, s', id, k);
      }
    }
  }

  lemma KeysAgree(t: Tables)
    requires Valid(t)
    ensures t.jobs.Keys == t.targets.Keys
  {
  }

  lemma WriterStep(s: State, e: Event)
    requires Inv(s) && (e.RecordRevision? || e.EnqueueRequest?)
    ensures Inv(Step(s, e)) && Later(s, Step(s, e))
  {
    hide Valid, Extends;
    if e.RecordRevision? {
      RecordKeeps(s.tables, e.r, e.origins, e.parents);
      RecordExtends(s.tables, e.r, e.origins, e.parents);
      QuietStep(s, Step(s, e));
    } else {
      EnqueueStep(s, e.q);
    }
  }

  lemma EnqueueStep(s: State, q: Request)
    requires Inv(s)
    ensures Inv(Step(s, EnqueueRequest(q))) && Later(s, Step(s, EnqueueRequest(q)))
  {
    EnqueueKeeps(s.tables, q);
    KeysAgree(s.tables);
    EnqueueExtends(s.tables, q);
    hide Valid, Extends;
    QuietStep(s, Step(s, EnqueueRequest(q)));
  }

  /** What a claim changes: the job row, and on success one new worker and one new token. */
  lemma ClaimShape(s: State, id: string, covered: set<string>, checkedAt: int, datedAt: int, token: Token)
    ensures var s' := DoClaim(s, id, covered, checkedAt, datedAt, token);
      var outcome := Claim(s.tables, id, s.required, covered, checkedAt, datedAt, s.leaseMs, token).1;
      && s'.required == s.required && s'.leaseMs == s.leaseMs && s'.receipts == s.receipts
      && s'.tables == Claim(s.tables, id, s.required, covered, checkedAt, datedAt, s.leaseMs, token).0
      && s'.tables.targets == s.tables.targets && s'.tables.jobs.Keys == s.tables.jobs.Keys
      && (forall i :: i in s.tables.jobs && i != id ==> s'.tables.jobs[i] == s.tables.jobs[i])
      && (outcome.Granted? ==>
            && id in s.tables.jobs && id in s.tables.targets && s.required <= covered
            && outcome.todo == WorkList(s.tables, id) && s'.tables.jobs[id].lease == Some(token)
            && s'.grants == s.grants[token := Grant(id, covered)]
            && s'.workers == s.workers[token := Worker(id, outcome.request, RevisionsOf(s.tables, outcome.todo),
                Applying)])
      && (!outcome.Granted? ==>
            && s'.grants == s.grants && s'.workers == s.workers
            && (id in s.tables.jobs ==> s'.tables.jobs[id].lease in {None, s.tables.jobs[id].lease}))
  {
    assert s.required - covered == {} ==> s.required <= covered by {
      if s.required - covered == {} {
        forall x | x in s.required ensures x in covered { assert x !in s.required - covered; }
      }
    }
  }

  lemma ClaimStep(s: State, id: string, covered: set<string>, checkedAt: int, datedAt: int, token: Token)
    requires Inv(s) && token !in s.grants
    ensures var s' := DoClaim(s, id, covered, checkedAt, datedAt, token); Inv(s') && Later(s, s')
  {
    hide Valid, Extends, DoClaim, Claim, WorkList, RevisionsOf;
    var s' := DoClaim(s, id, covered, checkedAt, datedAt, token);
    ClaimShape(s, id, covered, checkedAt, datedAt, token);
    ClaimKeeps(s.tables, id, s.required, covered, checkedAt, datedAt, s.leaseMs, token);
    ClaimExtends(s.tables, id, s.required, covered, checkedAt, datedAt, s.leaseMs, token);
    if Claim(s.tables, id, s.required, covered, checkedAt, datedAt, s.leaseMs, token).1.Granted? {
      var ks := WorkList(s.tables, id);
      RevisionsOfIsExact(s.tables, ks);
      assert forall k :: k in ks ==> k in s.tables.targets[id] by { WorkListIsExact(s.tables, id); }
      GrantedClaim(s, s', id, token);
    } else {
      QuietStep(s, s');
    }
  }

  lemma GrantedClaim(s: State, s': State, id: string, token: Token)
    requires Inv(s) && Later(s, s') && Valid(s'.tables)
    requires token !in s.grants && token in s'.workers && token in s'.grants && id in s.tables.jobs
    requires s'.grants == s.grants[token := s'.grants[token]] && s'.grants[token].id == id
    requires s.required <= s'.grants[token].covered
    requires s'.workers == s.workers[token := s'.workers[token]]
    requires s'.workers[token].id == id && s'.workers[token].phase.Applying?
    requires TodoIsExact(s.tables, id, s'.workers[token].todo)
    requires s'.tables.targets == s.tables.targets
    requires forall i :: i in s'.tables.jobs ==>
               i in s.tables.jobs && (i == id || s'.tables.jobs[i].lease == s.tables.jobs[i].lease)
    requires s'.tables.jobs[id].lease == Some(token)
    ensures Inv(s')
  {
    hide Valid;
    forall other | other in s'.workers ensures WorkerOk(s', other, s'.workers[other]) {
      if other != token {
        WorkerSurvives(s, s', other, s.workers[other]);
      }
    }
    forall i, k | i in s'.tables.targets && k in s'.tables.targets[i] && s'.tables.targets[i][k]
      ensures Receipted(s', i, k)
    {
      ReceiptsSurvive(s, s', i, k);
    }
  }

  lemma WorkerStep(s: State, e: Event)
    requires Inv(s) && (e.ApplySink? || e.WorkerFails? || e.Crash?)
    ensures Inv(Step(s, e)) && Later(s, Step(s, e))
  {
    hide Valid, Receipted, GrantsOk, LeasesOk, Earned;
    var s' := Step(s, e);
    assert s'.tables == s.tables && s'.grants == s.grants && s.receipts <= s'.receipts;
    QuietStep(s, s');
  }

  lemma MarkShape(s: State, token: Token, checkedAt: int, datedAt: int)
    requires token in s.workers && s.workers[token].phase.Marking? && s.workers[token].todo != []
    ensures var s' := DoMark(s, token, checkedAt, datedAt); var w := s.workers[token]; var k := w.todo[0].Id();
      && s' == s.(tables := s'.tables, workers := s'.workers)
      && s'.tables == FinishRevision(s.tables, w.id, token, k, checkedAt, datedAt, s.leaseMs).0
      && s'.tables.rows == s.tables.rows && s'.tables.jobs.Keys == s.tables.jobs.Keys
      && (forall i :: i in s.tables.jobs ==> s'.tables.jobs[i].lease == s.tables.jobs[i].lease)
      && s'.tables.targets.Keys == s.tables.targets.Keys
      && (forall i, x :: i in s'.tables.targets && x in s'.tables.targets[i] && s'.tables.targets[i][x] ==>
            (i == w.id && x == k) || (x in s.tables.targets[i] && s.tables.targets[i][x]))
      && (s'.workers == s.workers - {token}
          || s'.workers == s.workers[token := w.(todo := w.todo[1..], phase := Applying)])
  {
  }

  lemma AdvancedWorker(s: State, token: Token, w: Worker)
    requires WorkerOk(s, token, w) && w.todo != []
    ensures WorkerOk(s, token, w.(todo := w.todo[1..], phase := Applying))
  {
    assert forall r :: r in w.todo[1..] ==> r in w.todo;
  }

  lemma MarkedIsReceipted(s: State, s': State, token: Token)
    requires token in s.workers && WorkerOk(s, token, s.workers[token]) && GrantsOk(s)
    requires s.workers[token].phase.Marking?
    requires s'.required == s.required && s'.grants == s.grants && s'.receipts == s.receipts
    requires s'.tables.rows == s.tables.rows
    ensures s.workers[token].todo != [] && Receipted(s', s.workers[token].id, s.workers[token].todo[0].Id())
  {
    var w := s.workers[token];
    assert w.todo[0] in w.todo;
    assert (token, RevisionOf(w.todo[0].Id(), s'.tables.rows[w.todo[0].Id()])) in s'.receipts;
  }

  lemma MarkedStep(s: State, s': State, token: Token, w: Worker)
    requires Inv(s) && Valid(s'.tables) && Extends(s.tables, s'.tables)
    requires token in s.workers && w == s.workers[token] && w.phase.Marking? && w.todo != []
    requires s' == s.(tables := s'.tables, workers := s'.workers) && s'.tables.rows == s.tables.rows
    requires s'.workers == s.workers - {token} || s'.workers
        == s.workers[token := w.(todo := w.todo[1..], phase := Applying)]
    requires forall id :: id in s'.tables.jobs ==>
               id in s.tables.jobs && s'.tables.jobs[id].lease == s.tables.jobs[id].lease
    requires forall id, k :: id in s'.tables.targets && k in s'.tables.targets[id] && s'.tables.targets[id][k] ==>
               (id == w.id && k == w.todo[0].Id())
                 || (id in s.tables.targets && k in s.tables.targets[id] && s.tables.targets[id][k])
    ensures Inv(s') && Later(s, s')
  {
    hide Valid, Extends, WorkerOk, Receipted;
    assert Later(s, s');
    assert WorkerOk(s, token, w) && GrantsOk(s);
    MarkedIsReceipted(s, s', token);
    WorkerSurvives(s, s', token, w);
    AdvancedWorker(s', token, w);
    hide WorkersOk, GrantsOk, LeasesOk, Earned, Later;
    QuietStep(s, s');
  }

  lemma MarkStep(s: State, token: Token, checkedAt: int, datedAt: int)
    requires Inv(s) && token in s.workers
    ensures var s' := DoMark(s, token, checkedAt, datedAt); Inv(s') && Later(s, s')
  {
    hide Inv, Later, Valid, Extends, DoMark, FinishRevision;
    assert Valid(s.tables) by { TablesAreValid(s); }
    var w := s.workers[token];
    if w.phase.Marking? && w.todo != [] {
      MarkShape(s, token, checkedAt, datedAt);
      FinishRevisionKeeps(s.tables, w.id, token, w.todo[0].Id(), checkedAt, datedAt, s.leaseMs);
      FinishRevisionExtends(s.tables, w.id, token, w.todo[0].Id(), checkedAt, datedAt, s.leaseMs);
      MarkedStep(s, DoMark(s, token, checkedAt, datedAt), token, w);
    } else {
      UnmarkedIsQuiet(s, token, checkedAt, datedAt);
      LaterIsReflexive(s);
    }
  }

  lemma UnmarkedIsQuiet(s: State, token: Token, checkedAt: int, datedAt: int)
    requires token in s.workers && (!s.workers[token].phase.Marking? || s.workers[token].todo == [])
    ensures DoMark(s, token, checkedAt, datedAt) == s
  {
  }

  lemma TablesAreValid(s: State)
    requires Inv(s)
    ensures Valid(s.tables)
  {
  }

  lemma CloseStep(s: State, token: Token, now: int)
    requires Inv(s) && token in s.workers
    ensures var s' := DoClose(s, token, now); Inv(s') && Later(s, s')
  {
    hide Valid, Extends, WorkerOk, GrantsOk, LeasesOk, Earned, Receipted;
    var s' := DoClose(s, token, now);
    var w := s.workers[token];
    if s' != s {
      var reason := if w.phase.Closing? then w.phase.reason else None;
      FinishJobKeeps(s.tables, w.id, token, reason, now);
      FinishJobExtends(s.tables, w.id, token, reason, now);
      QuietStep(s, s');
    } else {
      LaterIsReflexive(s);
    }
  }

  lemma StepKeeps(s: State, e: Event)
    requires Inv(s)
    ensures Inv(Step(s, e)) && Later(s, Step(s, e))
  {
    hide Inv, Later;
    match e
    case RecordRevision(_, _, _) => WriterStep(s, e);
    case EnqueueRequest(_) => WriterStep(s, e);
    case ClaimJob(id, covered, checkedAt, datedAt, token) =>
      if token !in s.grants { ClaimStep(s, id, covered, checkedAt, datedAt, token); } else { LaterIsReflexive(s); }
    case MarkRevision(token, checkedAt, datedAt) =>
      if token in s.workers { MarkStep(s, token, checkedAt, datedAt); } else { LaterIsReflexive(s); }
    case CloseJob(token, now) =>
      if token in s.workers { CloseStep(s, token, now); } else { LaterIsReflexive(s); }
    case _ => WorkerStep(s, e);
  }

  lemma LaterIsReflexive(s: State)
    ensures Later(s, s)
  {
  }

  /** Every reachable state satisfies the invariant, and every later state extends every earlier one. */
  lemma {:induction false} RunKeeps(s: State, es: seq<Event>)
    requires Inv(s)
    ensures Inv(Run(s, es)) && Later(s, Run(s, es))
    decreases |es|
  {
    hide Inv, Later;
    if es == [] {
      LaterIsReflexive(s);
    } else {
      StepKeeps(s, es[0]);
      RunKeeps(Step(s, es[0]), es[1..]);
      LaterIsTransitive(s, Step(s, es[0]), Run(s, es));
    }
  }

  lemma InitIsInvariant(required: set<string>, leaseMs: nat)
    ensures Inv(Init(required, leaseMs))
  {
  }

  // ---------------------------------------------------------- main results

  /**
   Redaction completeness. Whatever happened before, a redact request's targets are exactly the
   recorded revisions with a matching origin; once it is complete, every revision that descends from
   matching content through any chain of parents was erased by its sink under a covering claim.
   */
  lemma RedactionComplete(required: set<string>, leaseMs: nat, es: seq<Event>, id: string, path: seq<Key>)
    requires var t := Run(Init(required, leaseMs), es).tables;
      && id in t.jobs && t.jobs[id].request.operation.Redact? && t.jobs[id].status.Complete?
      && AncestorPath(t, path) && path[|path| - 1] in t.rows
      && t.jobs[id].request.MatchesAny(t.rows[path[|path| - 1]].origins)
    ensures var s := Run(Init(required, leaseMs), es);
      && id in s.tables.targets && s.tables.targets[id].Keys == Scope(s.tables, s.tables.jobs[id].request)
      && path[0] in s.tables.targets[id] && s.tables.targets[id][path[0]] && Receipted(s, id, path[0])
  {
    var s := Run(Init(required, leaseMs), es);
    InitIsInvariant(required, leaseMs);
    RunKeeps(Init(required, leaseMs), es);
    AncestorsAreInherited(s.tables, path);
    assert path[0] in Scope(s.tables, s.tables.jobs[id].request);
    assert path[0] !in Unfinished(s.tables, id);
  }

  /** The scope of a redact request is frozen at enqueue: in every continuation it is the same set. */
  lemma RedactScopeIsFrozen(s: State, es: seq<Event>, id: string)
    requires Inv(s) && id in s.tables.jobs && s.tables.jobs[id].request.operation.Redact?
    ensures var q := s.tables.jobs[id].request; Scope(Run(s, es).tables, q) == Scope(s.tables, q)
  {
    RunKeeps(s, es);
    var t := Run(s, es).tables;
    assert t.jobs[id].request == s.tables.jobs[id].request && t.targets[id].Keys == s.tables.targets[id].Keys;
  }

  lemma ReachedOriginIsRefused(t: Tables, id: string, r: Revision, origins: seq<Origin>, parents: seq<ParentRef>,
      o: Origin)
    requires id in t.jobs && t.jobs[id].request.operation.Redact? && t.jobs[id].request.Matches(o)
    requires o in Inherited(t, r.tenant, origins, parents)
    ensures Record(t, r, origins, parents).1.Refused? && Record(t, r, origins, parents).0 == t
    ensures Publish(t, r, origins, parents).Refused?
  {
    assert t.jobs[id].request.MatchesAny(Inherited(t, r.tenant, origins, parents));
    assert Fenced(t, Inherited(t, r.tenant, origins, parents));
  }

  /**
   Derived content attempted after the request, in any continuation: recording or publishing a
   revision whose parent descends from matching content, or that itself brings a matching origin,
   is refused and changes nothing.
   */
  lemma LateDescendantIsRefused(s: State, es: seq<Event>, id: string,
                                r: Revision, origins: seq<Origin>, parents: seq<ParentRef>, p: ParentRef,
                                  path: seq<Key>)
    requires Inv(s) && id in s.tables.jobs && s.tables.jobs[id].request.operation.Redact?
    requires var t := Run(s, es).tables;
      p in parents && AncestorPath(t, path) && path[0] == ParentKey(r.tenant, p) && path[|path| - 1] in t.rows
      && s.tables.jobs[id].request.MatchesAny(t.rows[path[|path| - 1]].origins)
    ensures var t := Run(s, es).tables;
      && Record(t, r, origins, parents).1.Refused? && Record(t, r, origins, parents).0 == t
      && Publish(t, r, origins, parents).Refused?
  {
    RunKeeps(s, es);
    var t := Run(s, es).tables;
    AncestorsAreInherited(t, path);
    var o :| o in t.rows[path[|path| - 1]].origins && s.tables.jobs[id].request.Matches(o);
    assert o in t.rows[ParentKey(r.tenant, p)].origins;
    ReachedOriginIsRefused(t, id, r, origins, parents, o);
  }

  lemma LateOriginIsRefused(s: State, es: seq<Event>, id: string,
                            r: Revision, origins: seq<Origin>, parents: seq<ParentRef>, o: Origin)
    requires Inv(s) && id in s.tables.jobs && s.tables.jobs[id].request.operation.Redact?
    requires o in origins && s.tables.jobs[id].request.Matches(o)
    ensures var t := Run(s, es).tables;
      && Record(t, r, origins, parents).1.Refused? && Record(t, r, origins, parents).0 == t
      && Publish(t, r, origins, parents).Refused?
  {
    RunKeeps(s, es);
    ReachedOriginIsRefused(Run(s, es).tables, id, r, origins, parents, o);
  }

  /** A finished job rests on receipts for each exact target revision and never changes again. */
  lemma CompleteIsEarnedAndFinal(required: set<string>, leaseMs: nat, es: seq<Event>, fs: seq<Event>, id: string)
    requires var t := Run(Init(required, leaseMs), es).tables; id in t.jobs && t.jobs[id].status.Complete?
    ensures var s := Run(Init(required, leaseMs), es);
      && id in s.tables.targets
      && (forall k :: k in s.tables.targets[id] ==> s.tables.targets[id][k] && Receipted(s, id, k))
      && var s' := Run(s, fs);
         id in s'.tables.jobs && s'.tables.jobs[id] == s.tables.jobs[id]
         && id in s'.tables.targets && s'.tables.targets[id] == s.tables.targets[id]
  {
    var s := Run(Init(required, leaseMs), es);
    InitIsInvariant(required, leaseMs);
    RunKeeps(Init(required, leaseMs), es);
    RunKeeps(s, fs);
    forall k | k in s.tables.targets[id] ensures s.tables.targets[id][k] {
      assert k !in Unfinished(s.tables, id);
    }
  }

  /** A token that was issued but is no longer the job's lease. */
  ghost predicate Superseded(s: State, id: string, token: Token) {
    token in s.grants && (id in s.tables.jobs ==> s.tables.jobs[id].lease != Some(token))
  }

  /** New leases always carry fresh tokens, so one step cannot bring an old token back. */
  lemma SupersededStep(s: State, e: Event, id: string, token: Token)
    requires Superseded(s, id, token) && id in s.tables.jobs
    ensures Superseded(Step(s, e), id, token) && id in Step(s, e).tables.jobs
  {
  }

  lemma {:induction false} SupersededForever(s: State, es: seq<Event>, id: string, token: Token)
    requires Superseded(s, id, token) && id in s.tables.jobs
    ensures Superseded(Run(s, es), id, token)
    decreases |es|
  {
    if es != [] {
      SupersededStep(s, es[0], id, token);
      SupersededForever(Step(s, es[0]), es[1..], id, token);
    }
  }

  /**
   Exclusive workers: two tokens never hold one request together, and a token that was once
   replaced or released can neither flip a target nor close the job in any continuation.
   */
  lemma StaleTokensAreInert(s: State, es: seq<Event>, id: string, token: Token, other: Token, k: Key,
                            reason: Option<Reason>, checkedAt: int, datedAt: int)
    requires id in s.tables.jobs && token in s.grants && token != other
    requires s.tables.jobs[id].lease == Some(other) || s.tables.jobs[id].lease == None
    ensures var t := Run(s, es).tables;
      && !Holds(t, id, token, checkedAt)
      && FinishRevision(t, id, token, k, checkedAt, datedAt, s.leaseMs) == (t, false)
      && FinishJob(t, id, token, reason, checkedAt) == t
  {
    SupersededForever(s, es, id, token);
  }

  // --------------------------------------------- exactly when a job can end

  /** The steps of a worker nobody disturbs: apply and mark each remaining target, then close. */
  function WorkerScript(token: Token, remaining: nat, now: int): seq<Event> {
    if remaining == 0 then [CloseJob(token, now)]
    else [ApplySink(token, Applied), MarkRevision(token, now, now)] + WorkerScript(token, remaining - 1, now)
  }

  ghost predicate Lists(todo: seq<Revision>, k: Key) {
    exists i :: 0 <= i < |todo| && todo[i].Id() == k
  }

  /** The worker holds its lease and its list still names everything unfinished. */
  ghost predicate OnCourse(s: State, token: Token, now: int) {
    && token in s.workers && s.workers[token].phase.Applying?
    && Holds(s.tables, s.workers[token].id, token, now)
    && forall k :: k in Unfinished(s.tables, s.workers[token].id) ==> Lists(s.workers[token].todo, k)
  }

  lemma RoundKeeps(s: State, a: Event, m: Event)
    requires Inv(s)
    ensures Inv(Step(Step(s, a), m))
  {
    StepKeeps(s, a);
    StepKeeps(Step(s, a), m);
  }

  lemma UndisturbedRound(s: State, token: Token, now: int)
    requires s.leaseMs > 0 && OnCourse(s, token, now) && s.workers[token].todo != []
    requires s.workers[token].todo[0].Id() in s.tables.targets[s.workers[token].id]
    ensures var s2 := Step(Step(s, ApplySink(token, Applied)), MarkRevision(token, now, now));
      && OnCourse(s2, token, now) && s2.leaseMs == s.leaseMs
      && s2.workers[token] == s.workers[token].(todo := s.workers[token].todo[1..])
  {
    var w := s.workers[token];
    var s1 := Step(s, ApplySink(token, Applied));
    assert s1.workers[token] == w.(phase := Marking) && s1.tables == s.tables;
    var s2 := Step(s1, MarkRevision(token, now, now));
    var first := w.todo[0].Id();
    assert s2.tables.targets[w.id] == s.tables.targets[w.id][first := true];
    forall k | k in Unfinished(s2.tables, w.id) ensures Lists(w.todo[1..], k) {
      assert k in Unfinished(s.tables, w.id) && k != first;
      var i :| 0 <= i < |w.todo| && w.todo[i].Id() == k;
      assert w.todo[1..][i - 1].Id() == k;
    }
  }

  lemma RunOne(s: State, e: Event)
    ensures Run(s, [e]) == Step(s, e)
  {
    hide Step;
    assert Run(s, [e]) == Run(Step(s, e), []);
  }

  lemma RunTwo(s: State, a: Event, m: Event, rest: seq<Event>)
    ensures Run(s, [a, m] + rest) == Run(Step(Step(s, a), m), rest)
  {
    hide Step;
    assert ([a, m] + rest)[1..] == [m] + rest && ([m] + rest)[1..] == rest;
  }

  lemma LastStepCompletes(s: State, token: Token, now: int)
    requires OnCourse(s, token, now) && s.workers[token].todo == []
    ensures Completed(Step(s, CloseJob(token, now)), s.workers[token].id)
  {
    assert forall k :: !Lists(s.workers[token].todo, k);
    assert Unfinished(s.tables, s.workers[token].id) == {};
  }

  lemma WorkersAreOk(s: State)
    requires Inv(s)
    ensures WorkersOk(s)
  {
  }

  lemma FirstIsTarget(s: State, token: Token)
    requires WorkersOk(s) && token in s.workers && s.workers[token].todo != []
    ensures s.workers[token].id in s.tables.targets
    ensures s.workers[token].todo[0].Id() in s.tables.targets[s.workers[token].id]
  {
    assert s.workers[token].todo[0] in s.workers[token].todo;
  }

  ghost predicate Completed(s: State, id: string) {
    id in s.tables.jobs && s.tables.jobs[id].status.Complete?
  }

  lemma {:induction false} UndisturbedWorkerFinishes(s: State, token: Token, w: Worker, now: int)
    requires token in s.workers && s.workers[token] == w
    requires Inv(s) && s.leaseMs > 0 && OnCourse(s, token, now)
    ensures Completed(Run(s, WorkerScript(token, |w.todo|, now)), w.id)
    decreases |w.todo|
  {
    hide Inv, Later, Step, OnCourse, Run, WorkersOk, Unfinished, Completed;
    if w.todo == [] {
      LastStepCompletes(s, token, now);
      RunOne(s, CloseJob(token, now));
    } else {
      var a, m := ApplySink(token, Applied), MarkRevision(token, now, now);
      RoundKeeps(s, a, m);
      assert w.id in s.tables.targets && w.todo[0].Id() in s.tables.targets[w.id]
        by { WorkersAreOk(s); FirstIsTarget(s, token); }
      UndisturbedRound(s, token, now);
      UndisturbedWorkerFinishes(Step(Step(s, a), m), token, w.(todo := w.todo[1..]), now);
      RunTwo(s, a, m, WorkerScript(token, |w.todo| - 1, now));
    }
  }

  /** A target whose subjects are unknown blocks its subject-scoped request in every continuation. */
  lemma UnknownScopeNeverCompletes(s: State, es: seq<Event>, id: string, k: Key)
    requires Inv(s) && id in s.tables.jobs && k in s.tables.targets[id] && Blind(s.tables, id, k)
    ensures var t := Run(s, es).tables;
      && id in t.jobs && !t.jobs[id].status.Complete? && t.jobs[id].lease == None
      && id in t.targets && k in t.targets[id] && !t.targets[id][k]
  {
    RunKeeps(s, es);
    assert Blind(Run(s, es).tables, id, k);
  }

  /** And that is the only obstacle: without one, some continuation completes the request. */
  lemma KnownScopeCanComplete(s: State, id: string, token: Token, now: int) returns (es: seq<Event>)
    requires Inv(s) && s.leaseMs > 0 && id in s.tables.jobs && token !in s.grants
    requires forall k :: k in s.tables.targets[id] ==> !Blind(s.tables, id, k)
    requires s.tables.jobs[id].leaseUntil <= now
    ensures Completed(Run(s, es), id)
  {
    if s.tables.jobs[id].status.Complete? {
      es := [];
    } else {
      var c := ClaimJob(id, s.required, now, now, token);
      StepKeeps(s, c);
      WorkListIsExact(s.tables, id);
      RevisionsOfIsExact(s.tables, WorkList(s.tables, id));
      ClaimPutsOnCourse(s, id, token, now);
      var s1 := Step(s, c);
      UndisturbedWorkerFinishes(s1, token, s1.workers[token], now);
      es := [c] + WorkerScript(token, |s1.workers[token].todo|, now);
      assert es[1..] == WorkerScript(token, |s1.workers[token].todo|, now);
    }
  }

  lemma ClaimPutsOnCourse(s: State, id: string, token: Token, now: int)
    requires s.leaseMs > 0 && id in s.tables.jobs && id in s.tables.targets && token !in s.grants
    requires !s.tables.jobs[id].status.Complete? && s.tables.jobs[id].leaseUntil <= now
    requires forall k :: k in s.tables.targets[id] ==> !Blind(s.tables, id, k)
    requires forall k :: k in Unfinished(s.tables, id) ==> k in WorkList(s.tables, id)
    requires var ks := WorkList(s.tables, id);
      |RevisionsOf(s.tables, ks)| == |ks| && forall i :: 0 <= i < |ks| ==> RevisionsOf(s.tables, ks)[i].Id() == ks[i]
    ensures var s1 := Step(s, ClaimJob(id, s.required, now, now, token));
      OnCourse(s1, token, now) && s1.workers[token].id == id && s1.leaseMs == s.leaseMs
  {
    var s1 := Step(s, ClaimJob(id, s.required, now, now, token));
    assert s.required - s.required == {};
    assert Claim(s.tables, id, s.required, s.required, now, now, s.leaseMs, token).1.Granted?;
    var ks := WorkList(s.tables, id);
    assert s1.workers[token].todo == RevisionsOf(s.tables, ks);
    forall k | k in Unfinished(s1.tables, id) ensures Lists(s1.workers[token].todo, k) {
      assert k in Unfinished(s.tables, id);
      var i :| 0 <= i < |ks| && ks[i] == k;
      assert s1.workers[token].todo[i].Id() == k;
    }
  }
}
