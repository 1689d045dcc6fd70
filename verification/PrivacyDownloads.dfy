/**
 Downloads in flight: a download checks that its request is available, lists the parts, reads them one by one
 inside the ledger's fence and issues a token, and everything else goes on in between.
 */
module PrivacyDownloads {
  import opened Prelude
  import opened ContentPrivacy
  import opened PrivacyTables
  import opened PrivacySpool
  import E = PrivacyExports

  datatype Stage = Checked | Reading | Returned

  /** `left`: listed parts that are still to be read. */
  datatype Download = Download(id: string, stage: Stage, left: set<string>, read: map<string, string>)

  /** `begun` keeps the identities of downloads apart for ever. */
  datatype State = State(base: E.State, downloads: map<nat, Download>, begun: set<nat>)

  datatype Event =
    | Base(e: E.Event)
    | Begin(download: nat, id: string)
    | List(download: nat)
    | Read(download: nat, name: string)
    | Return(download: nat, token: string)
    | Drop(download: nat)

  function PartsOf(x: Spool, id: string): set<string> {
    set name | name in x.parts && x.parts[name].request.id == id
  }

  predicate At(s: State, d: nat, stage: Stage) {
    d in s.downloads && s.downloads[d].stage == stage
  }

  predicate Enabled(s: State, e: Event) {
    match e
    case Base(_) => true
    case Begin(d, id) => d !in s.begun && Available(s.base.spool, id)
    case List(d) => At(s, d, Checked)
    case Read(d, name) =>
      At(s, d, Reading) && name in s.downloads[d].left && Readable(s.base.ledger.tables, s.base.spool, name)
    case Return(d, _) => At(s, d, Reading) && s.downloads[d].left == {}
    case Drop(d) => d in s.downloads && !s.downloads[d].stage.Returned?
  }

  function Step(s: State, e: Event): State
    requires Enabled(s, e)
  {
    match e
    case Base(b) => s.(base := E.Step(s.base, b))
    case Begin(d, id) => s.(downloads := s.downloads[d := Download(id, Checked, {}, map[])], begun := s.begun + {d})
    case List(d) =>
      var w := s.downloads[d];
      s.(downloads := s.downloads[d := w.(stage := Reading, left := PartsOf(s.base.spool, w.id))])
    case Read(d, name) =>
      var w := s.downloads[d];
      var text := s.base.spool.parts[name].ciphertext.value;
      s.(downloads := s.downloads[d := w.(left := w.left - {name}, read := w.read[name := text])])
    case Return(d, token) =>
      var w := s.downloads[d];
      s.(base := E.Step(s.base, E.IssueToken(w.id, token)), downloads := s.downloads[d := w.(stage := Returned)])
    case Drop(d) => s.(downloads := s.downloads - {d})
  }

  predicate Legal(s: State, es: seq<Event>)
    decreases |es|
  {
    es == [] || (Enabled(s, es[0]) && Legal(Step(s, es[0]), es[1..]))
  }

  function Run(s: State, es: seq<Event>): State
    requires Legal(s, es)
    decreases |es|
  {
    if es == [] then s else Run(Step(s, es[0]), es[1..])
  }

  ghost predicate Inv(s: State) {
    E.Inv(s.base) && s.downloads.Keys <= s.begun
  }

  lemma StepKeeps(s: State, e: Event)
    requires Inv(s) && Enabled(s, e)
    ensures Inv(Step(s, e)) && E.Forward(s.base, Step(s, e).base)
  {
    hide E.Inv, E.Forward, E.Step, Readable, Available;
    E.RunKeeps(s.base, []);
    match e
    case Base(b) => E.StepKeeps(s.base, b);
    case Return(d, token) => E.StepKeeps(s.base, E.IssueToken(s.downloads[d].id, token));
    case _ =>
  }

  lemma {:induction false} RunKeeps(s: State, es: seq<Event>)
    requires Inv(s) && Legal(s, es)
    ensures Inv(Run(s, es))
    decreases |es|
  {
    hide Inv, Enabled, Step;
    if es != [] {
      StepKeeps(s, es[0]);
      RunKeeps(Step(s, es[0]), es[1..]);
    }
  }

  // ----------------------------------------------------------- main results

  /** The download was dropped, or it still has to read the part. */
  predicate Awaits(s: State, d: nat, name: string) {
    d in s.begun && (d in s.downloads ==> s.downloads[d].stage.Reading? && name in s.downloads[d].left)
  }

  /** A listed part that was erased before it was read. */
  predicate Lacks(s: State, d: nat, name: string) {
    Awaits(s, d, name) && name in s.base.spool.parts && s.base.spool.parts[name].erased
  }

  lemma AwaitsStays(s: State, e: Event, d: nat, name: string)
    requires Enabled(s, e) && Awaits(s, d, name) && !Readable(s.base.ledger.tables, s.base.spool, name)
    ensures Awaits(Step(s, e), d, name)
  {
    hide E.Step, Readable, Available, PartsOf;
    if e.Read? && e.download == d { assert e.name != name; }
  }

  lemma ErasedStays(x: E.State, y: E.State, name: string)
    requires E.Forward(x, y) && name in x.spool.parts && x.spool.parts[name].erased
    ensures name in y.spool.parts && y.spool.parts[name].erased
  {
  }

  lemma LacksStays(s: State, e: Event, d: nat, name: string)
    requires Inv(s) && Enabled(s, e) && Lacks(s, d, name)
    ensures Lacks(Step(s, e), d, name)
  {
    StepKeeps(s, e);
    ErasedIsUnreadable(s, name);
    AwaitsStays(s, e, d, name);
    hide Inv, Enabled, Step, E.Forward, Readable, Awaits;
    ErasedStays(s.base, Step(s, e).base, name);
  }

  lemma ErasedIsUnreadable(s: State, name: string)
    requires name in s.base.spool.parts && s.base.spool.parts[name].erased
    ensures !Readable(s.base.ledger.tables, s.base.spool, name)
  {
  }

  lemma LacksIsUnreturned(s: State, d: nat, name: string)
    requires Lacks(s, d, name)
    ensures d in s.downloads ==> !s.downloads[d].stage.Returned?
  {
  }

  /** Such a download never returns, in any continuation. */
  lemma {:induction false} ErasedPartStopsDownload(s: State, es: seq<Event>, d: nat, name: string)
    requires Inv(s) && Legal(s, es) && Lacks(s, d, name)
    ensures d in Run(s, es).downloads ==> !Run(s, es).downloads[d].stage.Returned?
    decreases |es|
  {
    hide Inv, Enabled, Step, Lacks;
    LacksIsUnreturned(s, d, name);
    if es != [] {
      StepKeeps(s, es[0]);
      LacksStays(s, es[0], d, name);
      ErasedPartStopsDownload(Step(s, es[0]), es[1..], d, name);
    }
  }

  /** Whatever ledger and spool do meanwhile, erasures included, leaves what a download has read. */
  lemma {:induction false} ReadStays(s: State, es: seq<Event>, d: nat)
    requires Inv(s) && Legal(s, es) && At(s, d, Reading) && forall i :: 0 <= i < |es| ==> es[i].Base?
    ensures At(Run(s, es), d, Reading) && Run(s, es).downloads[d] == s.downloads[d]
    decreases |es|
  {
    hide Inv, E.Step;
    if es != [] {
      StepKeeps(s, es[0]);
      ReadStays(Step(s, es[0]), es[1..], d);
    }
  }

  /**
   So a download that has read all its parts returns them, even when its request is revoked meanwhile; its token
   is not kept then.
   */
  lemma FullyReadDownloadReturns(s: State, es: seq<Event>, d: nat, token: string)
    requires Inv(s) && At(s, d, Reading) && s.downloads[d].left == {}
    requires Legal(s, es) && forall i :: 0 <= i < |es| ==> es[i].Base?
    ensures Enabled(Run(s, es), Return(d, token))
    ensures var t := Step(Run(s, es), Return(d, token));
      && At(t, d, Returned) && t.downloads[d].read == s.downloads[d].read
      && (!Available(Run(s, es).base.spool, s.downloads[d].id) ==> t.base == Run(s, es).base)
  {
    ReadStays(s, es, d);
    hide Inv, E.Inv, Run, Legal;
  }

  ghost predicate Revoked(s: State, id: string) {
    id in s.base.spool.requests && s.base.spool.requests[id].state.Revoked?
  }

  lemma RevokedStays(s: State, e: Event, id: string)
    requires Inv(s) && Enabled(s, e) && Revoked(s, id)
    ensures Revoked(Step(s, e), id)
    ensures forall d :: d in Step(s, e).downloads && Step(s, e).downloads[d].id == id ==>
              d in s.downloads && s.downloads[d].id == id
  {
    StepKeeps(s, e);
    hide E.Inv, E.Step;
  }

  /** After a revocation no download of the request begins, and no token of any download is ever acknowledged. */
  lemma {:induction false} RevokedRequestDeliversNothing(s: State, es: seq<Event>, id: string)
    requires Inv(s) && Legal(s, es) && Revoked(s, id)
    ensures forall d :: d in Run(s, es).downloads && Run(s, es).downloads[d].id == id ==>
              d in s.downloads && s.downloads[d].id == id
    ensures forall token :: !Acknowledge(Run(s, es).base.spool, id, token).1
    ensures !Delivered(Run(s, es).base.spool, id)
    decreases |es|
  {
    if es != [] {
      hide Inv, Enabled, Step, Revoked;
      StepKeeps(s, es[0]);
      RevokedStays(s, es[0], id);
      RevokedRequestDeliversNothing(Step(s, es[0]), es[1..], id);
    }
  }

  /** Whatever a download reads is reached by no redact request at that moment, in any run from the start. */
  lemma ReadsAreUnreached(s: State, es: seq<Event>, d: nat, name: string, id: string, path: seq<Key>)
    requires Inv(s) && Legal(s, es) && Enabled(Run(s, es), Read(d, name))
    requires var t := Run(s, es).base.ledger.tables;
      && id in t.jobs && t.jobs[id].request.operation.Redact?
      && name in Run(s, es).base.spool.parts
      && AncestorPath(t, path) && path[0] == E.StagedKey(Run(s, es).base.spool, name)
    ensures var t := Run(s, es).base.ledger.tables;
      path[|path| - 1] in t.rows && !t.jobs[id].request.MatchesAny(t.rows[path[|path| - 1]].origins)
  {
    RunKeeps(s, es);
    E.ReadablePartIsUnreached(Run(s, es).base, name, id, path);
  }

  lemma InitIsInvariant(required: set<string>, leaseMs: nat)
    ensures Inv(State(E.Init(required, leaseMs), map[], {}))
  {
    E.InitIsInvariant(required, leaseMs);
  }
}
