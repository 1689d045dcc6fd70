/**
 What an export delivers: a request becomes ready only when the ledger has completed the job of its
 identifier, and what a download returns is what was staged.
 */
module PrivacyDelivery {
  import opened Prelude
  import opened ContentPrivacy
  import opened PrivacyTables
  import opened PrivacySpool
  import P = PrivacyProtocol
  import E = PrivacyExports
  import D = PrivacyDownloads
  import R = PrivacyReach

  // -------------------------------------------------- single transactions

  /** The spool may take parts of the request: it is new, or the very same and not revoked. */
  predicate Usable(x: Spool, q: Request) {
    q.id in x.requests ==> x.requests[q.id].request == q && !x.requests[q.id].state.Revoked?
  }

  /**
   The request is sealed exactly when its identifier's job is complete and the spool may use it; only its state
   moves.
   */
  lemma SealIsExact(t: Tables, x: Spool, q: Request)
    ensures var (y, sealed) := Seal(t, x, q);
      && (sealed <==> q.operation.Export? && q.id in t.jobs && t.jobs[q.id].status.Complete? && Usable(x, q))
      && (sealed ==>
            && y.parts == x.parts && y.requests.Keys == x.requests.Keys + {q.id}
            && y.requests[q.id].state.Ready? && y.requests[q.id].request == q
            && (forall i :: i in x.requests && i != q.id ==> y.requests[i] == x.requests[i])
            && (if q.id in x.requests then y.requests[q.id].(state := x.requests[q.id].state) == x.requests[q.id]
                else y.requests[q.id].token == None && !y.requests[q.id].delivered))
      && (!sealed ==> y == x)
  {
  }

  /**
   A part is staged exactly when the spool may use its request and holds no other or erased part of that name;
   a new one holds the payload, a repetition changes nothing, and nothing else is touched.
   */
  lemma WritingIsExact(x: Spool, q: Request, source: Revision, name: string, digest: string)
    ensures var (y, outcome) := WritePart(x, q, source, name, digest);
      var same := name in x.parts && x.parts[name].request == q && x.parts[name].source == source
        && x.parts[name].digest == digest && !x.parts[name].erased;
      && (outcome.Done? <==> Usable(x, q) && (name in x.parts ==> same))
      && (!outcome.Done? ==> outcome.Conflict? && y == x)
      && (outcome.Done? ==>
            && y.parts == (if name in x.parts then x.parts
                           else x.parts[name := Part(q, source, digest, Some(digest), false)])
            && y.requests == (if q.id in x.requests then x.requests
                              else x.requests[q.id := ExportRequest(q, Staging, None, false)]))
  {
  }

  /** A copy passes the fence exactly when it is the recorded copy of its source and no redact request reaches it. */
  lemma FenceIsExact(t: Tables, q: Request, source: Revision, name: string, digest: string)
    requires Provenance(t)
    ensures !Publish(t, Staged(q, name, digest), [], SourceRef(source)).Refused?
            <==> && Key(q.tenant, name, digest) in t.rows
                 && R.WellReferred(t, Staged(q, name, digest), [], [(source.artifact, source.revision)])
                 && R.Describes(t, t.rows[Key(q.tenant, name, digest)], Staged(q, name, digest), [],
                      [(source.artifact, source.revision)])
                 && !R.InReach(t, Staged(q, name, digest), [], [(source.artifact, source.revision)])
  {
    var r, parents := Staged(q, name, digest), [(source.artifact, source.revision)];
    R.RecordIsExact(t, r, [], parents);
    forall o | R.Brings(t, r, [], parents, o) ensures o.tenant == r.tenant {
      var p :| p in parents && Key(r.tenant, p.0, p.1) in t.rows && o in t.rows[Key(r.tenant, p.0, p.1)].origins;
    }
    hide Record, R.InReach, R.Brings, R.Describes, R.WellReferred, Provenance;
  }

  /** Only exports of the request's own tenant with the recorded digest are staged, and only past the fence. */
  lemma PublishingIsExact(t: Tables, x: Spool, q: Request, source: Revision, name: string, digest: string)
    ensures var fence := Publish(t, Staged(q, name, digest), [], SourceRef(source));
      var allowed := q.operation.Export? && source.tenant == q.tenant && source.digest == digest;
      PublishPart(t, x, q, source, name, digest)
      == if !allowed then (x, Conflict) else if fence.Refused? then (x, LedgerRefused(fence.why))
         else WritePart(x, q, source, name, digest)
  {
    hide Publish, WritePart;
  }

  /** Only the last token issued to a ready request is acknowledged; that is what makes it delivered. */
  lemma TokensAreExact(x: Spool, id: string, token: string, other: string)
    requires id in x.requests && x.requests[id].state.Ready?
    ensures var y := Issue(x, id, token);
      && y.requests == x.requests[id := x.requests[id].(token := Some(token))] && y.parts == x.parts
      && (Acknowledge(y, id, other).1 <==> other == token)
      && Delivered(Acknowledge(y, id, token).0, id)
      && (other != token ==> Acknowledge(y, id, other).0 == y)
      && Acknowledge(y, id, token).0
         == y.(requests := y.requests[id := y.requests[id].(delivered := true)])
  {
  }

  /**
   Without being ready a request gets no token, without a token it is not acknowledged, and only ready it is
   delivered.
   */
  lemma UnreadyIsUndelivered(x: Spool, id: string, token: string)
    requires id in x.requests ==> !x.requests[id].state.Ready?
    ensures Issue(x, id, token) == x && !Delivered(x, id)
    ensures id in x.requests && x.requests[id].token == None ==> Acknowledge(x, id, token) == (x, false)
    ensures id !in x.requests ==> Acknowledge(x, id, token) == (x, false)
  {
  }

  /** Erasing hits the very revision, takes its payload and the request's token, and revokes the request. */
  lemma ErasureIsExact(x: Spool, r: Revision)
    ensures var (y, erased) := Erase(x, r);
      && (erased <==> (r.artifact in x.parts ==> x.parts[r.artifact].digest == r.digest))
      && (r.artifact in x.parts && erased ==>
            var part := x.parts[r.artifact];
            && y.parts == x.parts[r.artifact := Part(part.request, part.source, part.digest, None, true)]
            && y.requests.Keys == x.requests.Keys
            && forall i :: i in x.requests ==>
                 y.requests[i] == if i == part.request.id
                                  then ExportRequest(x.requests[i].request, Revoked, None, x.requests[i].delivered)
                                  else x.requests[i])
      && (r.artifact !in x.parts || !erased ==> y == x)
  {
  }

  // ----------------------------------------------- ready means complete

  predicate Promised(r: ExportRequest) {
    r.state.Ready? || r.token.Some? || r.delivered
  }

  /** What is ready, has a token or was delivered has a complete job under its identifier. */
  ghost predicate Earned(s: E.State) {
    forall id :: id in s.spool.requests && Promised(s.spool.requests[id]) ==>
      id in s.ledger.tables.jobs && s.ledger.tables.jobs[id].status.Complete?
  }

  /** No request is promised that was not, other than by sealing. */
  predicate NothingPromised(x: Spool, y: Spool) {
    forall id :: id in y.requests && Promised(y.requests[id]) ==> id in x.requests && Promised(x.requests[id])
  }

  lemma SpoolPromisesNothing(s: E.State, e: E.Event)
    requires !e.SealRequest?
    ensures NothingPromised(s.spool, E.Step(s, e).spool)
  {
    match e
    case SpoolRedact(token, busy, lost) =>
      if token in s.ledger.workers && s.ledger.workers[token].todo != [] {
        ErasureIsExact(s.spool, s.ledger.workers[token].todo[0]);
      }
      hide Erase, P.Step;
    case ExportPublish(q, source, name, digest) =>
      PublishingIsExact(s.ledger.tables, s.spool, q, source, name, digest);
      WritingIsExact(s.spool, q, source, name, digest);
      hide Publish, PublishPart, WritePart;
    case _ => hide P.Step, Publish;
  }

  lemma EarnedSurvives(s: E.State, u: E.State)
    requires Earned(s) && P.Later(s.ledger, u.ledger) && NothingPromised(s.spool, u.spool)
    ensures Earned(u)
  {
  }

  lemma StepKeepsEarned(s: E.State, e: E.Event)
    requires E.Inv(s) && Earned(s)
    ensures Earned(E.Step(s, e))
  {
    if e.SealRequest? {
      SealIsExact(s.ledger.tables, s.spool, e.q);
      hide E.Inv, Seal;
    } else {
      E.StepKeeps(s, e);
      SpoolPromisesNothing(s, e);
      hide E.Inv, E.Step, P.Later, NothingPromised;
      EarnedSurvives(s, E.Step(s, e));
    }
  }

  lemma {:induction false} RunKeepsEarned(s: E.State, es: seq<E.Event>)
    requires E.Inv(s) && Earned(s)
    ensures E.Inv(E.Run(s, es)) && Earned(E.Run(s, es))
    decreases |es|
  {
    hide E.Inv, Earned, E.Step;
    if es != [] {
      StepKeepsEarned(s, es[0]);
      E.StepKeeps(s, es[0]);
      RunKeepsEarned(E.Step(s, es[0]), es[1..]);
    }
  }

  /** The job is complete and every one of its targets was answered `complete` for exactly its recorded revision. */
  ghost predicate Whole(s: P.State, id: string) {
    && id in s.tables.jobs && s.tables.jobs[id].status.Complete? && id in s.tables.targets
    && forall k :: k in s.tables.targets[id] ==> P.Receipted(s, id, k)
  }

  lemma CompleteIsWhole(s: P.State, id: string)
    requires P.Inv(s) && id in s.tables.jobs && s.tables.jobs[id].status.Complete?
    ensures Whole(s, id)
  {
    assert Scoped(s.tables) && Settled(s.tables);
    forall k | k in s.tables.targets[id] ensures P.Receipted(s, id, k) {
      assert k !in Unfinished(s.tables, id);
    }
  }

  /** Over all runs a request that is ready, has a token or is delivered rests on a whole job. */
  lemma ReadyIsWhole(required: set<string>, leaseMs: nat, es: seq<E.Event>, id: string)
    requires var x := E.Run(E.Init(required, leaseMs), es).spool;
      id in x.requests && Promised(x.requests[id])
    ensures Whole(E.Run(E.Init(required, leaseMs), es).ledger, id)
  {
    E.InitIsInvariant(required, leaseMs);
    RunKeepsEarned(E.Init(required, leaseMs), es);
    CompleteIsWhole(E.Run(E.Init(required, leaseMs), es).ledger, id);
  }

  // --------------------------------------------------------- downloads

  ghost predicate Start(s: D.State) {
    exists required: set<string>, leaseMs: nat :: s == D.State(E.Init(required, leaseMs), map[], {})
  }

  /** Every part that is not erased still holds its payload. */
  ghost predicate Kept(x: Spool) {
    forall name :: name in x.parts && !x.parts[name].erased ==> x.parts[name].ciphertext == Some(x.parts[name].digest)
  }

  lemma StepKeepsPayloads(s: E.State, e: E.Event)
    requires Kept(s.spool)
    ensures Kept(E.Step(s, e).spool)
  {
    match e
    case SpoolRedact(token, busy, lost) =>
      if token in s.ledger.workers && s.ledger.workers[token].todo != [] {
        ErasureIsExact(s.spool, s.ledger.workers[token].todo[0]);
      }
      hide Erase, P.Step;
    case ExportPublish(q, source, name, digest) =>
      PublishingIsExact(s.ledger.tables, s.spool, q, source, name, digest);
      WritingIsExact(s.spool, q, source, name, digest);
      hide Publish, PublishPart, WritePart;
    case _ => hide P.Step, Publish;
  }

  /** What a download has read and has still to read are parts of its request, and what it read is their payload. */
  ghost predicate ReadsItsParts(x: Spool, w: D.Download) {
    && (forall name :: name in w.left || name in w.read ==> name in x.parts && x.parts[name].request.id == w.id)
    && (forall name :: name in w.read ==> w.read[name] == x.parts[name].digest)
    && (w.stage.Returned? ==> w.left == {}) && (w.stage.Checked? ==> w.left == {} && w.read == map[])
  }

  ghost predicate Bundled(s: D.State) {
    && D.Inv(s) && Earned(s.base) && Kept(s.base.spool)
    && (forall d :: d in s.downloads ==> ReadsItsParts(s.base.spool, s.downloads[d]))
    && (forall d :: d in s.downloads ==> Whole(s.base.ledger, s.downloads[d].id))
  }

  lemma PartsStay(x: Spool, y: Spool, w: D.Download)
    requires Ages(x, y) && ReadsItsParts(x, w)
    ensures ReadsItsParts(y, w)
  {
  }

  lemma WholeStays(s: P.State, u: P.State, id: string)
    requires P.Later(s, u) && Whole(s, id)
    ensures Whole(u, id)
  {
    forall k | k in u.tables.targets[id] ensures P.Receipted(u, id, k) {
      P.ReceiptsSurvive(s, u, id, k);
    }
  }

  lemma BaseKeepsBundles(s: D.State, e: E.Event)
    requires Bundled(s)
    ensures Bundled(s.(base := E.Step(s.base, e)))
  {
    E.StepKeeps(s.base, e);
    StepKeepsEarned(s.base, e);
    StepKeepsPayloads(s.base, e);
    hide E.Inv, E.Step, Earned, Kept, ReadsItsParts, Whole, P.Later, Ages;
    var u := E.Step(s.base, e);
    forall d | d in s.downloads ensures ReadsItsParts(u.spool, s.downloads[d]) && Whole(u.ledger, s.downloads[d].id) {
      PartsStay(s.base.spool, u.spool, s.downloads[d]);
      WholeStays(s.base.ledger, u.ledger, s.downloads[d].id);
    }
  }

  /** A download begins only on a whole job. */
  lemma BeginIsWhole(s: D.State, d: nat, id: string)
    requires Bundled(s) && D.Enabled(s, D.Begin(d, id))
    ensures Whole(s.base.ledger, id)
  {
    assert Promised(s.base.spool.requests[id]);
    assert P.Inv(s.base.ledger);
    hide P.Inv;
    CompleteIsWhole(s.base.ledger, id);
  }

  lemma ReadKeepsBundle(s: D.State, d: nat, name: string)
    requires Bundled(s) && D.Enabled(s, D.Read(d, name))
    ensures ReadsItsParts(s.base.spool, D.Step(s, D.Read(d, name)).downloads[d])
  {
  }

  lemma DownloadPut(s: D.State, d: nat, w: D.Download, u: D.State)
    requires Bundled(s) && ReadsItsParts(s.base.spool, w) && Whole(s.base.ledger, w.id)
    requires u.base == s.base && u.downloads == s.downloads[d := w] && u.begun == s.begun + {d}
    ensures Bundled(u)
  {
    hide E.Inv, Earned, Kept, Whole, ReadsItsParts;
  }

  lemma BundledReads(s: D.State, d: nat)
    requires Bundled(s) && d in s.downloads
    ensures ReadsItsParts(s.base.spool, s.downloads[d]) && Whole(s.base.ledger, s.downloads[d].id)
  {
  }

  lemma ListReads(s: D.State, d: nat)
    requires D.At(s, d, D.Checked) && ReadsItsParts(s.base.spool, s.downloads[d])
    ensures ReadsItsParts(s.base.spool, D.Step(s, D.List(d)).downloads[d])
  {
  }

  lemma DownloadStep(s: D.State, e: D.Event)
    requires Bundled(s) && D.Enabled(s, e) && (e.Begin? || e.List? || e.Read?)
    ensures Bundled(D.Step(s, e))
  {
    var u := D.Step(s, e);
    BegunStays(s, e);
    if e.Begin? {
      BeginIsWhole(s, e.download, e.id);
      assert u.downloads[e.download] == D.Download(e.id, D.Checked, {}, map[]);
      assert ReadsItsParts(s.base.spool, u.downloads[e.download]);
    } else {
      BundledReads(s, e.download);
      SameDownload(s, e);
      if e.List? {
        ListReads(s, e.download);
      } else {
        ReadKeepsBundle(s, e.download, e.name);
      }
    }
    hide Bundled, Whole, ReadsItsParts, D.Step, D.Enabled, D.Inv;
    DownloadPut(s, e.download, u.downloads[e.download], u);
  }

  lemma SameDownload(s: D.State, e: D.Event)
    requires D.Enabled(s, e) && (e.List? || e.Read?)
    ensures var u := D.Step(s, e); e.download in u.downloads && u.downloads[e.download].id == s.downloads[e.download].id
  {
    hide Readable;
  }

  lemma BegunStays(s: D.State, e: D.Event)
    requires D.Inv(s) && D.Enabled(s, e) && (e.Begin? || e.List? || e.Read?)
    ensures var u := D.Step(s, e);
      && e.download in u.downloads
      && u.base == s.base && u.downloads == s.downloads[e.download := u.downloads[e.download]]
      && u.begun == s.begun + {e.download}
  {
    hide E.Inv, Readable, Available;
    if !e.Begin? { assert e.download in s.downloads.Keys && e.download in s.begun; }
  }

  lemma StepKeepsBundles(s: D.State, e: D.Event)
    requires Bundled(s) && D.Enabled(s, e)
    ensures Bundled(D.Step(s, e))
  {
    match e
    case Base(b) => BaseKeepsBundles(s, b);
    case Return(d, token) =>
      BaseKeepsBundles(s, E.IssueToken(s.downloads[d].id, token));
      var base := E.Step(s.base, E.IssueToken(s.downloads[d].id, token));
      var t := s.(base := base);
      ReturnPut(t, d);
      hide E.Step;
    case Drop(_) => hide E.Inv, Earned, Kept, Whole, ReadsItsParts;
    case _ => DownloadStep(s, e);
  }

  lemma ReturnPut(s: D.State, d: nat)
    requires Bundled(s) && D.At(s, d, D.Reading) && s.downloads[d].left == {}
    ensures Bundled(s.(downloads := s.downloads[d := s.downloads[d].(stage := D.Returned)]))
  {
    hide E.Inv, Earned, Kept, Whole;
  }

  lemma {:induction false} RunKeepsBundles(s: D.State, es: seq<D.Event>)
    requires Bundled(s) && D.Legal(s, es)
    ensures Bundled(D.Run(s, es))
    decreases |es|
  {
    hide Bundled, D.Enabled, D.Step;
    if es != [] {
      StepKeepsBundles(s, es[0]);
      RunKeepsBundles(D.Step(s, es[0]), es[1..]);
    }
  }

  lemma StartIsBundled(s: D.State)
    requires Start(s)
    ensures Bundled(s)
  {
    var required: set<string>, leaseMs: nat :| s == D.State(E.Init(required, leaseMs), map[], {});
    D.InitIsInvariant(required, leaseMs);
  }

  /**
   Over all runs a download is under way or returned only for a whole job, and what it has read is, part for part
   of that request, the payload that was staged.
   */
  lemma DownloadsAreWhole(s: D.State, es: seq<D.Event>, d: nat)
    requires Start(s) && D.Legal(s, es) && d in D.Run(s, es).downloads
    ensures var u := D.Run(s, es); var w := u.downloads[d];
      && Whole(u.base.ledger, w.id)
      && forall name :: name in w.read ==>
           name in u.base.spool.parts && u.base.spool.parts[name].request.id == w.id
           && w.read[name] == u.base.spool.parts[name].digest
  {
    StartIsBundled(s);
    RunKeepsBundles(s, es);
  }

  /** From its listing on, what a download has read and has to read together is all it listed. */
  predicate Lists(s: D.State, d: nat, names: set<string>) {
    d in s.begun
    && (d in s.downloads ==> !s.downloads[d].stage.Checked? && s.downloads[d].left + s.downloads[d].read.Keys == names)
  }

  lemma {:induction false} ListingStays(s: D.State, es: seq<D.Event>, d: nat, names: set<string>)
    requires Lists(s, d, names) && D.Legal(s, es)
    ensures Lists(D.Run(s, es), d, names)
    decreases |es|
  {
    hide E.Step, Readable, Available;
    if es != [] {
      ListingStays(D.Step(s, es[0]), es[1..], d, names);
    }
  }

  /** A download that returns has read every part its request had when it listed them. */
  lemma ReturnedIsEverything(s: D.State, es: seq<D.Event>, d: nat)
    requires Bundled(s) && D.At(s, d, D.Checked) && D.Legal(D.Step(s, D.List(d)), es)
    requires D.At(D.Run(D.Step(s, D.List(d)), es), d, D.Returned)
    ensures D.Run(D.Step(s, D.List(d)), es).downloads[d].read.Keys
            == set name | name in s.base.spool.parts && s.base.spool.parts[name].request.id == s.downloads[d].id
  {
    var t := D.Step(s, D.List(d));
    ListedStarts(s, d);
    StepKeepsBundles(s, D.List(d));
    hide Bundled, D.Step;
    RunKeepsBundles(t, es);
    ListingStays(t, es, d, PartsNamed(s.base.spool, s.downloads[d].id));
    ReturnedReadAll(D.Run(t, es), d);
  }

  function PartsNamed(x: Spool, id: string): set<string> {
    set name | name in x.parts && x.parts[name].request.id == id
  }

  lemma ListedStarts(s: D.State, d: nat)
    requires Bundled(s) && D.At(s, d, D.Checked)
    ensures Lists(D.Step(s, D.List(d)), d, PartsNamed(s.base.spool, s.downloads[d].id))
  {
    assert d in s.downloads.Keys;
    hide E.Inv, Earned, Kept, Whole;
  }

  lemma ReturnedReadAll(s: D.State, d: nat)
    requires Bundled(s) && D.At(s, d, D.Returned)
    ensures s.downloads[d].left == {}
  {
  }

  // ------------------------------------------- an identifier used twice

  /** Only these requests are ever enqueued, exported or sealed. */
  predicate Uses(es: seq<E.Event>, requests: set<Request>) {
    forall i :: 0 <= i < |es| ==> UsesOnly(es[i], requests)
  }

  predicate UsesOnly(e: E.Event, requests: set<Request>) {
    && (e.LedgerStep? && e.e.EnqueueRequest? ==> e.e.q in requests)
    && (e.ExportPublish? || e.SealRequest? ==> e.q in requests)
  }

  /** No identifier stands for an export and for something else. */
  predicate Distinct(requests: set<Request>) {
    forall q, other :: q in requests && other in requests && q.operation.Export? && q.id == other.id ==> q == other
  }

  /** What is ready is the ledger's own request of that identifier. */
  ghost predicate OwnJobs(s: E.State) {
    forall id :: id in s.spool.requests && id in s.ledger.tables.jobs && Promised(s.spool.requests[id]) ==>
      s.spool.requests[id].request == s.ledger.tables.jobs[id].request
  }

  ghost predicate Within(s: E.State, requests: set<Request>) {
    && (forall id :: id in s.ledger.tables.jobs ==>
          s.ledger.tables.jobs[id].request in requests && s.ledger.tables.jobs[id].request.id == id)
    && SpoolWithin(s.spool, requests)
  }

  lemma LedgerStaysWithin(s: P.State, e: P.Event, requests: set<Request>)
    requires P.Inv(s) && (e.EnqueueRequest? ==> e.q in requests)
    requires forall id :: id in s.tables.jobs ==> s.tables.jobs[id].request in requests
    ensures forall id :: id in P.Step(s, e).tables.jobs ==> P.Step(s, e).tables.jobs[id].request in requests
  {
    hide P.Inv, Record, WorkList, Blind, Scope, P.RevisionsOf, Unfinished;
    match e
    case RecordRevision(r, origins, parents) => R.RecordIsExact(s.tables, r, origins, parents);
    case _ =>
  }

  predicate SpoolWithin(x: Spool, requests: set<Request>) {
    forall id :: id in x.requests ==>
      x.requests[id].request in requests && x.requests[id].request.id == id && x.requests[id].request.operation.Export?
  }

  lemma PublishingStaysWithin(t: Tables, x: Spool, q: Request, source: Revision, name: string, digest: string,
      requests: set<Request>)
    requires SpoolWithin(x, requests) && q in requests
    ensures SpoolWithin(PublishPart(t, x, q, source, name, digest).0, requests)
  {
    PublishingIsExact(t, x, q, source, name, digest);
    WritingIsExact(x, q, source, name, digest);
    hide Publish, PublishPart, WritePart;
  }

  lemma SpoolStaysWithin(s: E.State, e: E.Event, requests: set<Request>)
    requires SpoolWithin(s.spool, requests) && UsesOnly(e, requests)
    ensures SpoolWithin(E.Step(s, e).spool, requests)
  {
    match e
    case SpoolRedact(token, busy, lost) =>
      if token in s.ledger.workers && s.ledger.workers[token].todo != [] {
        ErasureIsExact(s.spool, s.ledger.workers[token].todo[0]);
      }
      hide Erase, P.Step;
    case ExportPublish(q, source, name, digest) =>
      PublishingStaysWithin(s.ledger.tables, s.spool, q, source, name, digest, requests);
      hide PublishPart, SpoolWithin;
    case SealRequest(q) =>
      SealIsExact(s.ledger.tables, s.spool, q);
      hide Seal;
    case _ => hide P.Step, Publish;
  }

  lemma LedgerEventStaysWithin(s: E.State, e: E.Event, requests: set<Request>)
    requires E.Inv(s) && Within(s, requests) && UsesOnly(e, requests)
    ensures forall id :: id in E.Step(s, e).ledger.tables.jobs ==>
              E.Step(s, e).ledger.tables.jobs[id].request in requests
  {
    match e
    case LedgerStep(le) => LedgerStaysWithin(s.ledger, le, requests);
    case SpoolRedact(token, busy, lost) =>
      LedgerStaysWithin(s.ledger, P.ApplySink(token, P.Conflicted), requests);
      LedgerStaysWithin(s.ledger, P.ApplySink(token, P.Applied), requests);
    case ExportRecord(q, source, name, digest) =>
      LedgerStaysWithin(s.ledger, P.RecordRevision(Staged(q, name, digest), [], SourceRef(source)), requests);
    case _ =>
    hide E.Inv, P.Inv, P.Step, Erase, Seal, PublishPart;
  }

  lemma JobsKeepTheirIds(s: P.State)
    requires P.Inv(s)
    ensures forall id :: id in s.tables.jobs ==> s.tables.jobs[id].request.id == id
  {
    assert Scoped(s.tables);
  }

  lemma {:induction false} RunStaysWithin(s: E.State, es: seq<E.Event>, requests: set<Request>)
    requires E.Inv(s) && Within(s, requests) && Uses(es, requests)
    ensures Within(E.Run(s, es), requests)
    decreases |es|
  {
    hide E.Inv, E.Step, UsesOnly;
    if es != [] {
      var t := E.Step(s, es[0]);
      E.StepKeeps(s, es[0]);
      SpoolStaysWithin(s, es[0], requests);
      LedgerEventStaysWithin(s, es[0], requests);
      assert P.Inv(t.ledger) by { InvOfLedger(t); }
      JobsKeepTheirIds(t.ledger);
      assert Uses(es[1..], requests);
      RunStaysWithin(t, es[1..], requests);
    }
  }

  lemma InvOfLedger(s: E.State)
    requires E.Inv(s)
    ensures P.Inv(s.ledger)
  {
  }

  /**
   What is ready is the ledger's own request, over all runs, exactly when no identifier is used for an export and
   for something else: sealing compares identifiers only.
   */
  lemma ReadyIsOwnExactly(required: set<string>, leaseMs: nat, requests: set<Request>)
    requires leaseMs > 0
    ensures Distinct(requests)
            <==> forall es :: Uses(es, requests) ==> OwnJobs(E.Run(E.Init(required, leaseMs), es))
  {
    var init := E.Init(required, leaseMs);
    if Distinct(requests) {
      forall es | Uses(es, requests) ensures OwnJobs(E.Run(init, es)) {
        E.InitIsInvariant(required, leaseMs);
        RunStaysWithin(init, es, requests);
      }
    } else {
      var q, other :| q in requests && other in requests && q.operation.Export? && q.id == other.id && q != other;
      var es := ReusedIdentifierIsReady(required, leaseMs, q, other);
      assert Uses(es, requests);
    }
  }

  /** With the identifier of a completed job an export is ready at once, though the ledger was never asked for it. */
  lemma ReusedIdentifierIsReady(required: set<string>, leaseMs: nat, q: Request, other: Request)
      returns (es: seq<E.Event>)
    requires leaseMs > 0 && q.operation.Export? && q.id == other.id && q != other
    ensures Uses(es, {q, other}) && !OwnJobs(E.Run(E.Init(required, leaseMs), es))
  {
    var init := E.Init(required, leaseMs);
    var enqueue := E.LedgerStep(P.EnqueueRequest(other));
    var claim := E.LedgerStep(P.ClaimJob(q.id, required, 0, 0, "token"));
    var close := E.LedgerStep(P.CloseJob("token", 0));
    var seal := E.SealRequest(q);
    Enqueued(init, other);
    var s1 := E.Step(init, enqueue);
    Claimed(s1, other);
    var s2 := E.Step(s1, claim);
    Closed(s2, other);
    var s3 := E.Step(s2, close);
    SealIsExact(s3.ledger.tables, s3.spool, q);
    var s4 := E.Step(s3, seal);
    assert !OwnJobs(s4) by { assert Promised(s4.spool.requests[q.id]); }
    es := [enqueue, claim, close, seal];
    hide E.Step, OwnJobs;
    RunFour(init, enqueue, claim, close, seal);
  }

  lemma RunFour(s: E.State, a: E.Event, b: E.Event, c: E.Event, d: E.Event)
    ensures E.Run(s, [a, b, c, d]) == E.Step(E.Step(E.Step(E.Step(s, a), b), c), d)
  {
    hide E.Step;
    assert [a, b, c, d][1..] == [b, c, d] && [b, c, d][1..] == [c, d] && [c, d][1..] == [d] && [d][1..] == [];
    assert E.Run(E.Step(E.Step(E.Step(s, a), b), c), [d]) == E.Step(E.Step(E.Step(E.Step(s, a), b), c), d);
    assert E.Run(E.Step(E.Step(s, a), b), [c, d]) == E.Step(E.Step(E.Step(E.Step(s, a), b), c), d);
  }

  /** A request of a ledger without content, before its claim, in work, and complete. */
  lemma Enqueued(s: E.State, q: Request)
    requires s.ledger.tables == EMPTY && s.spool == Spool(map[], map[])
    ensures E.Step(s, E.LedgerStep(P.EnqueueRequest(q)))
            == s.(ledger := s.ledger.(tables := Tables([], map[], map[q.id := Job(q, Pending, None, 0, None)],
                 map[q.id := map[]])))
  {
    assert Scope(EMPTY, q) == {};
  }

  lemma Claimed(s: E.State, q: Request)
    requires s.ledger.tables == Tables([], map[], map[q.id := Job(q, Pending, None, 0, None)], map[q.id := map[]])
    requires "token" !in s.ledger.grants
    ensures var u := E.Step(s, E.LedgerStep(P.ClaimJob(q.id, s.ledger.required, 0, 0, "token")));
      && u.spool == s.spool && "token" in u.ledger.workers
      && u.ledger.workers["token"] == P.Worker(q.id, q, [], P.Applying)
      && u.ledger.tables
         == Tables([], map[], map[q.id := Job(q, Processing, Some("token"), s.ledger.leaseMs, None)],
              map[q.id := map[]])
  {
    var t := s.ledger.tables;
    assert Unfinished(t, q.id) == {} && WorkList(t, q.id) == [];
    assert s.ledger.required - s.ledger.required == {};
    hide WorkList, Blind;
  }

  lemma Closed(s: E.State, q: Request)
    requires "token" in s.ledger.workers && s.ledger.workers["token"] == P.Worker(q.id, q, [], P.Applying)
    requires exists leaseMs: nat :: leaseMs > 0 && s.ledger.tables
               == Tables([], map[], map[q.id := Job(q, Processing, Some("token"), leaseMs, None)], map[q.id := map[]])
    ensures var u := E.Step(s, E.LedgerStep(P.CloseJob("token", 0)));
      && u.spool == s.spool && q.id in u.ledger.tables.jobs
      && u.ledger.tables.jobs[q.id].request == q && u.ledger.tables.jobs[q.id].status.Complete?
  {
    assert Unfinished(s.ledger.tables, q.id) == {};
  }
}
