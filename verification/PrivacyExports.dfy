/**
 Staged export copies on top of the ledger. The spool is its own database; a staged copy is first
 recorded in the ledger and then written inside the ledger's publication fence.
 Names of staged artifacts stand for the hash of request and source; payloads stand for their digest.
 */
module PrivacySpool {
  import opened Prelude
  import opened ContentPrivacy
  import opened PrivacyTables

  const SPOOL := "privacy-export-spool"

  datatype Delivery = Staging | Ready | Revoked

  datatype ExportRequest = ExportRequest(request: Request, state: Delivery, token: Option<string>, delivered: bool)

  /** `ciphertext` is the staged payload; `request` and `source` are the authenticated data bound to it. */
  datatype Part = Part(request: Request, source: Revision, digest: string, ciphertext: Option<string>, erased: bool)

  datatype Spool = Spool(requests: map<string, ExportRequest>, parts: map<string, Part>)

  datatype ExportOutcome = Done | Conflict | LedgerRefused(why: Refusal)

  function Staged(q: Request, name: string, digest: string): Revision {
    Revision(q.tenant, name, digest, SPOOL, digest)
  }

  function SourceRef(source: Revision): seq<ParentRef> {
    [(source.artifact, source.revision)]
  }

  /** The checks `export` makes before it touches either database. */
  predicate Exportable(q: Request, source: Revision, digest: string) {
    q.operation.Export? && source.tenant == q.tenant && digest == source.digest
  }

  function OpenRequest(x: Spool, q: Request): Spool {
    if q.id in x.requests then x else x.(requests := x.requests[q.id := ExportRequest(q, Staging, None, false)])
  }

  /** The spool transaction that runs inside the ledger's fence. */
  function WritePart(x: Spool, q: Request, source: Revision, name: string, digest: string): (Spool, ExportOutcome) {
    if q.id in x.requests && (x.requests[q.id].request != q || x.requests[q.id].state.Revoked?) then (x, Conflict)
    else if name in x.parts then
      var prior := x.parts[name];
      if prior.request != q || prior.source != source || prior.digest != digest || prior.erased then (x, Conflict)
      else (OpenRequest(x, q), Done)
    else
      var x1 := OpenRequest(x, q);
      (x1.(parts := x1.parts[name := Part(q, source, digest, Some(digest), false)]), Done)
  }

  function PublishPart(t: Tables, x: Spool, q: Request, source: Revision, name: string, digest: string)
      : (Spool, ExportOutcome)
  {
    if !Exportable(q, source, digest) then (x, Conflict)
    else
      match Publish(t, Staged(q, name, digest), [], SourceRef(source))
      case Refused(why) => (x, LedgerRefused(why))
      case _ => WritePart(x, q, source, name, digest)
  }

  /** `seal`: ready only once the ledger reports the export request complete. */
  function Seal(t: Tables, x: Spool, q: Request): (Spool, bool) {
    if !q.operation.Export? || q.id !in t.jobs || !t.jobs[q.id].status.Complete? then (x, false)
    else if q.id !in x.requests then (x.(requests := x.requests[q.id := ExportRequest(q, Ready, None, false)]), true)
    else if x.requests[q.id].request != q || x.requests[q.id].state.Revoked? then (x, false)
    else (x.(requests := x.requests[q.id := x.requests[q.id].(state := Ready)]), true)
  }

  /** The row check shared by `download` and `acknowledge`. */
  predicate Available(x: Spool, id: string) {
    id in x.requests && x.requests[id].state.Ready?
  }

  /** One disclosure: the part is decrypted inside the ledger's fence. */
  predicate Readable(t: Tables, x: Spool, name: string) {
    && name in x.parts && !x.parts[name].erased && x.parts[name].ciphertext.Some?
    && !Publish(t, Staged(x.parts[name].request, name, x.parts[name].digest), [],
        SourceRef(x.parts[name].source)).Refused?
  }

  function Issue(x: Spool, id: string, token: string): Spool {
    if Available(x, id) then x.(requests := x.requests[id := x.requests[id].(token := Some(token))]) else x
  }

  /** The last transaction of `acknowledge`; its availability check was an earlier one. */
  function Acknowledge(x: Spool, id: string, token: string): (Spool, bool) {
    if id in x.requests && x.requests[id].token == Some(token)
    then (x.(requests := x.requests[id := x.requests[id].(delivered := true)]), true)
    else (x, false)
  }

  predicate Delivered(x: Spool, id: string) {
    id in x.requests && x.requests[id].delivered && x.requests[id].state.Ready?
  }

  function Erase(x: Spool, r: Revision): (Spool, bool) {
    if r.artifact !in x.parts then (x, true)
    else
      var part := x.parts[r.artifact];
      if part.digest != r.digest then (x, false)
      else
        var id := part.request.id;
        var requests :=
          if id in x.requests then x.requests[id := x.requests[id].(state := Revoked, token := None)] else x.requests;
        (Spool(requests, x.parts[r.artifact := part.(ciphertext := None, erased := true)]), true)
  }

  // ------------------------------------------------------ the spool alone

  /** Erasure and revocation go together and leave nothing to deliver. */
  ghost predicate Coherent(x: Spool) {
    && (forall id :: id in x.requests ==>
        x.requests[id].request.id == id && (x.requests[id].state.Revoked? ==> x.requests[id].token == None))
    && (forall name :: name in x.parts ==>
          && x.parts[name].request.id in x.requests
              && x.requests[x.parts[name].request.id].request == x.parts[name].request
          && (x.parts[name].erased <==> x.parts[name].ciphertext == None)
          && (x.parts[name].erased ==> x.requests[x.parts[name].request.id].state.Revoked?))
  }

  /** Parts keep their identity, erasure and revocation are permanent. */
  ghost predicate Ages(x: Spool, x': Spool) {
    && (forall id :: id in x.requests ==>
          id in x'.requests && x'.requests[id].request == x.requests[id].request
          && (x.requests[id].state.Revoked? ==> x'.requests[id].state.Revoked?))
    && (forall name :: name in x.parts ==>
          name in x'.parts && x'.parts[name] == x.parts[name].(ciphertext := x'.parts[name].ciphertext,
            erased := x'.parts[name].erased)
          && (x.parts[name].erased ==> x'.parts[name].erased))
  }

  lemma OpenRequestKeeps(x: Spool, q: Request)
    requires Coherent(x)
    ensures Coherent(OpenRequest(x, q)) && Ages(x, OpenRequest(x, q))
  {
  }

  lemma AddPartKeeps(x: Spool, name: string, part: Part)
    requires Coherent(x) && name !in x.parts && part.ciphertext.Some? && !part.erased
    requires part.request.id in x.requests && x.requests[part.request.id].request == part.request
    ensures Coherent(x.(parts := x.parts[name := part])) && Ages(x, x.(parts := x.parts[name := part]))
  {
  }

  lemma WritePartKeeps(x: Spool, q: Request, source: Revision, name: string, digest: string)
    requires Coherent(x)
    ensures var x' := WritePart(x, q, source, name, digest).0; Coherent(x') && Ages(x, x')
  {
    hide Coherent, Ages;
    AgesIsReflexive(x);
    OpenRequestKeeps(x, q);
    if WritePart(x, q, source, name, digest).1.Done? && name !in x.parts {
      AddPartKeeps(OpenRequest(x, q), name, Part(q, source, digest, Some(digest), false));
      AgesIsTransitive(x, OpenRequest(x, q), WritePart(x, q, source, name, digest).0);
    }
  }

  lemma AgesIsReflexive(x: Spool)
    ensures Ages(x, x)
  {
  }

  lemma SealKeeps(t: Tables, x: Spool, q: Request)
    requires Coherent(x)
    ensures var x' := Seal(t, x, q).0; Coherent(x') && Ages(x, x')
  {
  }

  lemma IssueKeeps(x: Spool, id: string, token: string)
    requires Coherent(x)
    ensures Coherent(Issue(x, id, token)) && Ages(x, Issue(x, id, token))
  {
  }

  lemma AcknowledgeKeeps(x: Spool, id: string, token: string)
    requires Coherent(x)
    ensures var x' := Acknowledge(x, id, token).0; Coherent(x') && Ages(x, x')
  {
  }

  lemma EraseKeeps(x: Spool, r: Revision)
    requires Coherent(x)
    ensures var x' := Erase(x, r).0; Coherent(x') && Ages(x, x')
    ensures Erase(x, r).1 && r.artifact in x.parts ==> Erase(x, r).0.parts[r.artifact].erased
  {
  }

  lemma AgesIsTransitive(x: Spool, y: Spool, z: Spool)
    requires Ages(x, y) && Ages(y, z)
    ensures Ages(x, z)
  {
  }
}

/** Ledger and spool running together, with the spool as the sink of every staged copy. */
module PrivacyExports {
  import opened Prelude
  import opened ContentPrivacy
  import opened PrivacyTables
  import opened PrivacySpool
  import P = PrivacyProtocol

  datatype State = State(ledger: P.State, spool: Spool)

  datatype Event =
    | LedgerStep(e: P.Event)
    /** A worker hands its current target to the spool; it may lose the answer. */
    | SpoolRedact(token: Token, checkpointBusy: bool, answerLost: bool)
    | ExportRecord(q: Request, source: Revision, name: string, digest: string)
    | ExportPublish(q: Request, source: Revision, name: string, digest: string)
    | SealRequest(q: Request)
    | IssueToken(id: string, token: string)
    | AcknowledgeDelivery(id: string, token: string)

  /** The spool, and nothing else, answers for a redaction of one of its copies. */
  predicate SpoolAnswers(s: P.State, e: P.Event) {
    && e.ApplySink? && e.outcome.Applied? && e.token in s.workers
    && s.workers[e.token].request.operation.Redact?
    && s.workers[e.token].todo != [] && s.workers[e.token].todo[0].sink == SPOOL
  }

  function DoSpoolRedact(s: State, token: Token, checkpointBusy: bool, answerLost: bool): State
    requires token in s.ledger.workers
  {
    var w := s.ledger.workers[token];
    if !w.phase.Applying? || w.todo == [] || w.todo[0].sink != SPOOL || !w.request.operation.Redact? then s
    else if w.todo[0].tenant != w.request.tenant then
      State(P.Step(s.ledger, P.ApplySink(token, P.Conflicted)), s.spool)
    else
      var (x, erased) := Erase(s.spool, w.todo[0]);
      var kept := erased && !(checkpointBusy && w.todo[0].artifact in s.spool.parts);
      var answer := P.ApplySink(token, if kept then P.Applied else P.Conflicted);
      State(if answerLost then s.ledger else P.Step(s.ledger, answer), x)
  }

  function Step(s: State, e: Event): State {
    match e
    case LedgerStep(le) => if SpoolAnswers(s.ledger, le) then s else s.(ledger := P.Step(s.ledger, le))
    case SpoolRedact(token, busy, lost) => if token in s.ledger.workers then DoSpoolRedact(s, token, busy, lost) else s
    case ExportRecord(q, source, name, digest) =>
      if Exportable(q, source, digest)
      then s.(ledger := P.Step(s.ledger, P.RecordRevision(Staged(q, name, digest), [], SourceRef(source)))) else s
    case ExportPublish(q, source, name, digest) =>
      s.(spool := PublishPart(s.ledger.tables, s.spool, q, source, name, digest).0)
    case SealRequest(q) => s.(spool := Seal(s.ledger.tables, s.spool, q).0)
    case IssueToken(id, token) => s.(spool := Issue(s.spool, id, token))
    case AcknowledgeDelivery(id, token) => s.(spool := Acknowledge(s.spool, id, token).0)
  }

  function Run(s: State, es: seq<Event>): State
    decreases |es|
  {
    if es == [] then s else Run(Step(s, es[0]), es[1..])
  }

  function Init(required: set<string>, leaseMs: nat): State {
    State(P.Init(required, leaseMs), Spool(map[], map[]))
  }

  // -------------------------------------------------------------- invariant

  function StagedKey(x: Spool, name: string): Key
    requires name in x.parts
  {
    Staged(x.parts[name].request, name, x.parts[name].digest).Id()
  }

  /** Every copy in the spool is a recorded revision of the spool whose only parent is its source. */
  ghost predicate Traced(t: Tables, x: Spool) {
    forall name :: name in x.parts ==>
      && StagedKey(x, name) in t.rows
      && t.rows[StagedKey(x, name)].sink == SPOOL && t.rows[StagedKey(x, name)].digest == x.parts[name].digest
      && t.rows[StagedKey(x, name)].parents == {(x.parts[name].source.artifact, x.parts[name].source.revision)}
  }

  /** A receipt belongs to a grant and names one of its job's targets exactly as recorded. */
  ghost predicate Targeted(s: P.State) {
    forall token, r :: (token, r) in s.receipts ==>
      && token in s.grants && s.grants[token].id in s.tables.jobs && s.grants[token].id in s.tables.targets
      && r.Id() in s.tables.targets[s.grants[token].id]
      && r.Id() in s.tables.rows && RevisionOf(r.Id(), s.tables.rows[r.Id()]) == r
  }

  ghost predicate Gone(x: Spool, r: Revision) {
    r.artifact in x.parts && StagedKey(x, r.artifact) == r.Id() && x.parts[r.artifact].digest == r.digest
    ==> x.parts[r.artifact].erased
  }

  /** What a redact job was told is erased is erased. */
  ghost predicate ErasuresHold(s: P.State, x: Spool) {
    forall token, r ::
      ((token, r) in s.receipts && r.sink == SPOOL
       && token in s.grants && s.grants[token].id in s.tables.jobs
       && s.tables.jobs[s.grants[token].id].request.operation.Redact?)
      ==> Gone(x, r)
  }

  ghost predicate Inv(s: State) {
    && P.Inv(s.ledger) && Coherent(s.spool)
    && WorkersKnowTheirRequest(s.ledger)
    && Traced(s.ledger.tables, s.spool) && Targeted(s.ledger) && ErasuresHold(s.ledger, s.spool)
  }

  ghost predicate WorkersKnowTheirRequest(s: P.State) {
    forall token :: token in s.workers ==>
      s.workers[token].id in s.tables.jobs && s.workers[token].request == s.tables.jobs[s.workers[token].id].request
  }

  lemma TracedSurvives(t: Tables, t': Tables, x: Spool)
    requires Traced(t, x) && Extends(t, t')
    ensures Traced(t', x)
  {
    forall name | name in x.parts ensures StagedKey(x, name) in t'.rows
      && t'.rows[StagedKey(x, name)] == t.rows[StagedKey(x, name)] { }
  }

  /** A ledger step adds at most the receipt of the answering worker's current target. */
  ghost predicate AddsOnlyAnswered(s: P.State, e: P.Event, s': P.State) {
    forall token, r :: (token, r) in s'.receipts && (token, r) !in s.receipts ==>
      && e.ApplySink? && e.outcome.Applied? && e.token == token && token in s.workers
      && s.workers[token].todo != [] && s.workers[token].todo[0] == r
  }

  lemma ReceiptsAreAnswers(s: P.State, e: P.Event)
    ensures AddsOnlyAnswered(s, e, P.Step(s, e))
  {
    hide PrivacyTables.Record, PrivacyTables.Enqueue, PrivacyTables.Claim, PrivacyTables.FinishRevision;
    hide PrivacyTables.FinishJob;
  }

  lemma TargetedSurvives(s: P.State, e: P.Event, s': P.State)
    requires Targeted(s) && P.Later(s, s') && AddsOnlyAnswered(s, e, s') && P.WorkersOk(s)
    ensures Targeted(s')
  {
    forall token, r | (token, r) in s'.receipts
      ensures token in s'.grants && s'.grants[token].id in s'.tables.jobs && s'.grants[token].id in s'.tables.targets
      ensures r.Id() in s'.tables.targets[s'.grants[token].id]
      ensures r.Id() in s'.tables.rows && RevisionOf(r.Id(), s'.tables.rows[r.Id()]) == r
    {
      if (token, r) !in s.receipts {
        assert P.WorkerOk(s, token, s.workers[token]);
        assert s.workers[token].todo[0] in s.workers[token].todo;
      }
    }
  }

  /** A worker keeps the request it was granted. */
  lemma RequestsStayKnown(s: P.State, e: P.Event)
    requires WorkersKnowTheirRequest(s) && P.Later(s, P.Step(s, e))
    ensures WorkersKnowTheirRequest(P.Step(s, e))
  {
    hide Extends;
    assert forall id :: id in s.tables.jobs ==>
      id in P.Step(s, e).tables.jobs && P.Step(s, e).tables.jobs[id].request == s.tables.jobs[id].request by {
      RequestsPersist(s.tables, P.Step(s, e).tables);
    }
    hide PrivacyTables.Record, PrivacyTables.Enqueue, PrivacyTables.FinishRevision, PrivacyTables.FinishJob, WorkList;
  }

  lemma RequestsPersist(t: Tables, t': Tables)
    requires Extends(t, t')
    ensures forall id :: id in t.jobs ==> id in t'.jobs && t'.jobs[id].request == t.jobs[id].request
  {
  }

  lemma LedgerReceipts(s: P.State, e: P.Event)
    requires P.Inv(s) && Targeted(s) && WorkersKnowTheirRequest(s)
    ensures var s' := P.Step(s, e);
      Targeted(s') && WorkersKnowTheirRequest(s') && AddsOnlyAnswered(s, e, s') && P.Later(s, s') && P.Inv(s')
  {
    assert P.WorkersOk(s);
    hide P.Inv, P.Later, P.Step, Targeted, WorkersKnowTheirRequest, AddsOnlyAnswered, P.WorkersOk;
    P.StepKeeps(s, e);
    ReceiptsAreAnswers(s, e);
    TargetedSurvives(s, e, P.Step(s, e));
    RequestsStayKnown(s, e);
  }

  /** A ledger step is safe for the spool unless it reports an erasure that did not happen. */
  lemma LedgerOnly(s: State, e: P.Event)
    requires Inv(s)
    requires SpoolAnswers(s.ledger, e) ==> Gone(s.spool, s.ledger.workers[e.token].todo[0])
    ensures var s' := s.(ledger := P.Step(s.ledger, e)); Inv(s') && P.Later(s.ledger, s'.ledger)
  {
    hide P.Inv, P.Step, Coherent, Traced, Targeted, AddsOnlyAnswered;
    var s' := s.(ledger := P.Step(s.ledger, e));
    LedgerReceipts(s.ledger, e);
    assert P.WorkersOk(s.ledger) by { P.WorkersAreOk(s.ledger); }
    TracedSurvives(s.ledger.tables, s'.ledger.tables, s.spool);
    ErasuresSurvive(s, s', e);
  }

  lemma ErasuresSurvive(s: State, s': State, e: P.Event)
    requires ErasuresHold(s.ledger, s.spool) && Targeted(s.ledger) && WorkersKnowTheirRequest(s.ledger)
    requires P.WorkersOk(s.ledger) && P.Later(s.ledger, s'.ledger) && s'.spool == s.spool
    requires SpoolAnswers(s.ledger, e) ==> Gone(s.spool, s.ledger.workers[e.token].todo[0])
    requires AddsOnlyAnswered(s.ledger, e, s'.ledger)
    ensures ErasuresHold(s'.ledger, s'.spool)
  {
    forall token, r | (token, r) in s'.ledger.receipts && r.sink == SPOOL
      && token in s'.ledger.grants && s'.ledger.grants[token].id in s'.ledger.tables.jobs
      && s'.ledger.tables.jobs[s'.ledger.grants[token].id].request.operation.Redact?
      ensures Gone(s'.spool, r)
    {
      if (token, r) !in s.ledger.receipts {
        assert P.WorkerOk(s.ledger, token, s.ledger.workers[token]);
      }
    }
  }

  /** The fence: a copy that a redact job reaches cannot be written any more. */
  lemma PublishedIsUnreached(s: State, q: Request, source: Revision, name: string, digest: string, id: string)
    requires P.Inv(s.ledger) && id in s.ledger.tables.jobs && s.ledger.tables.jobs[id].request.operation.Redact?
    requires !Publish(s.ledger.tables, Staged(q, name, digest), [], SourceRef(source)).Refused?
    ensures Staged(q, name, digest).Id() in s.ledger.tables.rows
    ensures id in s.ledger.tables.targets && Staged(q, name, digest).Id() !in s.ledger.tables.targets[id]
    ensures s.ledger.tables.rows[Staged(q, name, digest).Id()].sink == SPOOL
    ensures s.ledger.tables.rows[Staged(q, name, digest).Id()].digest == digest
    ensures s.ledger.tables.rows[Staged(q, name, digest).Id()].parents == {(source.artifact, source.revision)}
  {
    var t := s.ledger.tables;
    PublishedRow(t, q, source, name, digest);
    var k := Staged(q, name, digest).Id();
    assert !t.jobs[id].request.MatchesAny(t.rows[k].origins);
    assert t.targets[id].Keys == Scope(t, t.jobs[id].request);
  }

  lemma PublishedRow(t: Tables, q: Request, source: Revision, name: string, digest: string)
    requires !Publish(t, Staged(q, name, digest), [], SourceRef(source)).Refused?
    ensures var k := Staged(q, name, digest).Id();
      && k in t.rows && !Fenced(t, t.rows[k].origins)
      && t.rows[k].sink == SPOOL && t.rows[k].digest == digest
      && t.rows[k].parents == {(source.artifact, source.revision)}
  {
    var r := Staged(q, name, digest);
    assert Record(t, r, [], SourceRef(source)).1 == Unchanged;
    assert (set p | p in SourceRef(source)) == {(source.artifact, source.revision)};
  }

  lemma NewPartIsSafe(s: State, s': State, q: Request, source: Revision, name: string, digest: string)
    requires P.Inv(s.ledger) && Traced(s.ledger.tables, s.spool) && ErasuresHold(s.ledger, s.spool)
    requires Targeted(s.ledger)
    requires !Publish(s.ledger.tables, Staged(q, name, digest), [], SourceRef(source)).Refused?
    requires s'.ledger == s.ledger
    requires s'.spool.parts == s.spool.parts[name := Part(q, source, digest, Some(digest), false)]
    ensures Traced(s'.ledger.tables, s'.spool) && ErasuresHold(s'.ledger, s'.spool)
  {
    hide P.Inv, Publish;
    var t := s.ledger.tables;
    PublishedRow(t, q, source, name, digest);
    forall token, r | (token, r) in s.ledger.receipts && r.sink == SPOOL
      && token in s.ledger.grants && s.ledger.grants[token].id in t.jobs
      && t.jobs[s.ledger.grants[token].id].request.operation.Redact?
      ensures Gone(s'.spool, r)
    {
      if r.artifact == name && r.Id() == Staged(q, name, digest).Id() {
        PublishedIsUnreached(s, q, source, name, digest, s.ledger.grants[token].id);
      } else {
        assert Gone(s.spool, r);
      }
    }
  }

  lemma PublishStep(s: State, q: Request, source: Revision, name: string, digest: string)
    requires Inv(s)
    ensures var s' := s.(spool := PublishPart(s.ledger.tables, s.spool, q, source, name, digest).0);
      Inv(s') && Ages(s.spool, s'.spool)
  {
    hide P.Inv, Publish, Traced, Targeted, ErasuresHold, Coherent, Ages;
    var s' := s.(spool := PublishPart(s.ledger.tables, s.spool, q, source, name, digest).0);
    AgesIsReflexive(s.spool);
    WritePartKeeps(s.spool, q, source, name, digest);
    if s'.spool.parts != s.spool.parts {
      NewPartIsSafe(s, s', q, source, name, digest);
    } else {
      SpoolAges(s, s');
    }
  }

  /** A spool transaction that adds no part keeps everything the ledger was told. */
  lemma SpoolAges(s: State, s': State)
    requires ErasuresHold(s.ledger, s.spool) && Traced(s.ledger.tables, s.spool)
    requires s'.ledger == s.ledger && Ages(s.spool, s'.spool) && s'.spool.parts.Keys == s.spool.parts.Keys
    ensures ErasuresHold(s'.ledger, s'.spool) && Traced(s'.ledger.tables, s'.spool)
  {
    forall name | name in s'.spool.parts ensures StagedKey(s'.spool, name) == StagedKey(s.spool, name) { }
    forall token, r | (token, r) in s'.ledger.receipts && Gone(s.spool, r) ensures Gone(s'.spool, r) { }
  }

  lemma SpoolStep(s: State, e: Event)
    requires Inv(s) && (e.SealRequest? || e.IssueToken? || e.AcknowledgeDelivery?)
    ensures var s' := Step(s, e); Inv(s') && s'.ledger == s.ledger && Ages(s.spool, s'.spool)
  {
    hide P.Inv;
    match e
    case SealRequest(q) =>
      SealKeeps(s.ledger.tables, s.spool, q);
      SpoolAges(s, Step(s, e));
    case IssueToken(id, token) =>
      IssueKeeps(s.spool, id, token);
      SpoolAges(s, Step(s, e));
    case AcknowledgeDelivery(id, token) =>
      AcknowledgeKeeps(s.spool, id, token);
      SpoolAges(s, Step(s, e));
    case _ =>
  }

  lemma EraseOnly(s: State, r: Revision)
    requires Inv(s)
    ensures var s' := s.(spool := Erase(s.spool, r).0); Inv(s') && Ages(s.spool, s'.spool)
    ensures Erase(s.spool, r).1 ==> Gone(Erase(s.spool, r).0, r)
  {
    hide P.Inv;
    EraseKeeps(s.spool, r);
    SpoolAges(s, s.(spool := Erase(s.spool, r).0));
  }

  lemma RedactStep(s: State, token: Token, busy: bool, lost: bool)
    requires Inv(s) && token in s.ledger.workers
    ensures var s' := DoSpoolRedact(s, token, busy, lost);
      Inv(s') && P.Later(s.ledger, s'.ledger) && Ages(s.spool, s'.spool)
  {
    hide Inv, Traced, Targeted, ErasuresHold, Gone, Coherent, P.Later, P.Step, Erase, Ages;
    var w := s.ledger.workers[token];
    P.LaterIsReflexive(s.ledger);
    AgesIsReflexive(s.spool);
    if w.phase.Applying? && w.todo != [] && w.todo[0].sink == SPOOL && w.request.operation.Redact? {
      if w.todo[0].tenant != w.request.tenant {
        LedgerOnly(s, P.ApplySink(token, P.Conflicted));
      } else {
        var (x, erased) := Erase(s.spool, w.todo[0]);
        EraseOnly(s, w.todo[0]);
        var s1 := s.(spool := x);
        if !lost {
          var kept := erased && !(busy && w.todo[0].artifact in s.spool.parts);
          LedgerOnly(s1, P.ApplySink(token, if kept then P.Applied else P.Conflicted));
        }
      }
    }
  }

  /** Both databases only move forward. */
  ghost predicate Forward(s: State, s': State) {
    P.Later(s.ledger, s'.ledger) && Ages(s.spool, s'.spool)
  }

  lemma StepKeeps(s: State, e: Event)
    requires Inv(s)
    ensures Inv(Step(s, e)) && Forward(s, Step(s, e))
  {
    hide Inv, P.Later, P.Step, Ages, Erase;
    P.LaterIsReflexive(s.ledger);
    AgesIsReflexive(s.spool);
    match e
    case LedgerStep(le) =>
      if !SpoolAnswers(s.ledger, le) { LedgerOnly(s, le); }
    case SpoolRedact(token, busy, lost) =>
      if token in s.ledger.workers { RedactStep(s, token, busy, lost); }
    case ExportRecord(q, source, name, digest) =>
      if Exportable(q, source, digest) {
        LedgerOnly(s, P.RecordRevision(Staged(q, name, digest), [], SourceRef(source)));
      }
    case ExportPublish(q, source, name, digest) =>
      PublishStep(s, q, source, name, digest);
    case _ => SpoolStep(s, e);
  }

  lemma {:induction false} RunKeeps(s: State, es: seq<Event>)
    requires Inv(s)
    ensures Inv(Run(s, es)) && Forward(s, Run(s, es))
    decreases |es|
  {
    hide Inv, P.Later, Ages, Step;
    if es == [] {
      P.LaterIsReflexive(s.ledger);
      AgesIsReflexive(s.spool);
    } else {
      var s1 := Step(s, es[0]);
      StepKeeps(s, es[0]);
      RunKeeps(s1, es[1..]);
      P.LaterIsTransitive(s.ledger, s1.ledger, Run(s, es).ledger);
      AgesIsTransitive(s.spool, s1.spool, Run(s, es).spool);
    }
  }

  lemma InitIsInvariant(required: set<string>, leaseMs: nat)
    ensures Inv(Init(required, leaseMs))
  {
    P.InitIsInvariant(required, leaseMs);
  }

  // ---------------------------------------------------------- main results

  /**
   Staged copies do not outlive redaction: once a redact request is complete, no ciphertext in the
   spool descends, through any chain of parents, from content the request reaches.
   */
  lemma CompletedRedactionEmptiesSpool(required: set<string>, leaseMs: nat, es: seq<Event>, id: string, name: string,
      path: seq<Key>)
    requires var s := Run(Init(required, leaseMs), es); var t := s.ledger.tables;
      && id in t.jobs && t.jobs[id].request.operation.Redact? && t.jobs[id].status.Complete?
      && name in s.spool.parts && AncestorPath(t, path) && path[0] == StagedKey(s.spool, name)
      && path[|path| - 1] in t.rows && t.jobs[id].request.MatchesAny(t.rows[path[|path| - 1]].origins)
    ensures var x := Run(Init(required, leaseMs), es).spool;
      && x.parts[name].ciphertext == None && x.parts[name].erased
      && x.parts[name].request.id in x.requests && x.requests[x.parts[name].request.id].state.Revoked?
  {
    InitIsInvariant(required, leaseMs);
    RunKeeps(Init(required, leaseMs), es);
    var s := Run(Init(required, leaseMs), es);
    assert Provenance(s.ledger.tables);
    AncestorsAreInherited(s.ledger.tables, path);
    ReachedCopyIsErased(s, id, name);
  }

  lemma ReachedCopyIsErased(s: State, id: string, name: string)
    requires Inv(s) && id in s.ledger.tables.jobs && name in s.spool.parts
    requires s.ledger.tables.jobs[id].request.operation.Redact? && s.ledger.tables.jobs[id].status.Complete?
    requires StagedKey(s.spool, name) in s.ledger.tables.rows
    requires s.ledger.tables.jobs[id].request.MatchesAny(s.ledger.tables.rows[StagedKey(s.spool, name)].origins)
    ensures s.spool.parts[name].erased
  {
    var t := s.ledger.tables;
    var k := StagedKey(s.spool, name);
    assert k in t.targets[id] && k !in Unfinished(t, id) by {
      assert Scoped(t) && Settled(t) && Provenance(t);
      assert k in Scope(t, t.jobs[id].request);
    }
    assert P.Receipted(s.ledger, id, k) by { assert P.Earned(s.ledger); }
    var r := RevisionOf(k, t.rows[k]);
    var token :| token in s.ledger.grants && s.ledger.grants[token].id == id && (token, r) in s.ledger.receipts;
    assert r.sink == SPOOL;
    assert Gone(s.spool, r);
  }

  /** A request with an erased part is revoked for ever: nothing of it is available, read or delivered again. */
  lemma ErasedPartRevokesForever(s: State, es: seq<Event>, name: string)
    requires Inv(s) && name in s.spool.parts && s.spool.parts[name].erased
    ensures var s' := Run(s, es); var id := s.spool.parts[name].request.id;
      && id in s'.spool.requests && s'.spool.requests[id].state.Revoked?
      && !Available(s'.spool, id) && !Delivered(s'.spool, id)
      && !Readable(s'.ledger.tables, s'.spool, name)
      && (forall token :: !Acknowledge(s'.spool, id, token).1 && Issue(s'.spool, id, token) == s'.spool)
      && (forall q: Request :: q.id == id ==> !Seal(s'.ledger.tables, s'.spool, q).1)
  {
    RunKeeps(s, es);
  }

  /** Nothing is disclosed past the fence: a readable part is reached by no redact request, finished or not. */
  lemma ReadablePartIsUnreached(s: State, name: string, id: string, path: seq<Key>)
    requires Inv(s) && Readable(s.ledger.tables, s.spool, name)
    requires id in s.ledger.tables.jobs && s.ledger.tables.jobs[id].request.operation.Redact?
    requires AncestorPath(s.ledger.tables, path) && path[0] == StagedKey(s.spool, name)
    ensures path[|path| - 1] in s.ledger.tables.rows
    ensures !s.ledger.tables.jobs[id].request.MatchesAny(s.ledger.tables.rows[path[|path| - 1]].origins)
  {
    var t := s.ledger.tables;
    var part := s.spool.parts[name];
    assert Provenance(t);
    AncestorsAreInherited(t, path);
    PublishedRow(t, part.request, part.source, name, part.digest);
  }

  /** Every copy hangs below its source in the ledger, so requests that reach the source reach the copy. */
  lemma CopiesFollowTheirSource(s: State, name: string, q: Request)
    requires Inv(s) && name in s.spool.parts
    requires Key(s.spool.parts[name].request.tenant, s.spool.parts[name].source.artifact,
      s.spool.parts[name].source.revision) in Scope(s.ledger.tables, q)
    ensures StagedKey(s.spool, name) in Scope(s.ledger.tables, q)
  {
    var t := s.ledger.tables;
    var k := StagedKey(s.spool, name);
    var p := (s.spool.parts[name].source.artifact, s.spool.parts[name].source.revision);
    assert p in t.rows[k].parents && Provenance(t);
    ParentIsInherited(t, k, ParentKey(k.tenant, p));
  }
}
