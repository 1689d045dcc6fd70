/** The search outbox agrees with the canonical rows: every row has an upsert intent at its current versions. */
module SearchOutbox {
  import opened Prelude
  import opened RuntimeTables
  import SessionLineage
  import ParentChains

  ghost predicate SessionsAgree(s: Store, except: Option<Id>) {
    forall x :: x in s.sessions && s.sessions[x].contract && Some(x) != except ==> SessionIntent(s, x) in s.outbox
  }

  predicate Indexed(s: Store, m: Id) {
    m in s.messages && s.messages[m].session in s.sessions && MessageIntent(s, m) in s.outbox
  }

  ghost predicate MessagesAgree(s: Store) {
    forall m :: m in s.messages && s.messages[m].session in s.sessions && s.sessions[s.messages[m].session].contract ==>
      Indexed(s, m)
  }

  ghost predicate ToolsAgree(s: Store) {
    forall c :: c in s.tools && c.run in s.runs && s.runs[c.run].contract ==> ToolIntent(s, c) in s.outbox
  }

  ghost predicate Agrees(s: Store) {
    SessionsAgree(s, None) && MessagesAgree(s) && ToolsAgree(s)
  }

  // ----------------------------------------------- building blocks of `_message`

  /** The row itself, before any intent. */
  function Added(s: Store, run: Id, m: Id, row: Message): Store
    requires run in s.runs
  {
    Touched(s.(messages := s.messages[m := row]), s.runs[run].session)
  }

  lemma AddedAgrees(s: Store, run: Id, m: Id, row: Message)
    requires run in s.runs && m !in s.messages && row.session == s.runs[run].session
    requires SessionsAgree(s, Some(row.session)) && MessagesAgree(s) && ToolsAgree(s)
    ensures var t := Enqueued(Added(s, run, m, row), OfMessage(m));
      SessionsAgree(t, Some(row.session)) && MessagesAgree(t) && ToolsAgree(t)
  {
    var t := Enqueued(Added(s, run, m, row), OfMessage(m));
    forall k | k in t.messages && t.messages[k].session in t.sessions && t.sessions[t.messages[k].session].contract
      ensures Indexed(t, k)
    {
      if k != m { assert Indexed(s, k); }
    }
  }

  lemma EnqueuedAgrees(s: Store, x: Id)
    requires SessionsAgree(s, Some(x)) && MessagesAgree(s) && ToolsAgree(s)
    ensures Agrees(Enqueued(s, OfSession(x)))
  {
    var t := Enqueued(s, OfSession(x));
    forall k | k in t.messages && t.messages[k].session in t.sessions && t.sessions[t.messages[k].session].contract
      ensures Indexed(t, k)
    {
      assert Indexed(s, k);
    }
  }

  lemma RefreshedAgrees(s: Store, run: Id)
    requires Agrees(s)
    ensures Agrees(ToolsRefreshed(s, run))
  {
    var t := ToolsRefreshed(s, run);
    forall k | k in t.messages && t.messages[k].session in t.sessions && t.sessions[t.messages[k].session].contract
      ensures Indexed(t, k)
    {
      assert Indexed(s, k);
    }
    forall c | c in t.tools && c.run in t.runs && t.runs[c.run].contract ensures ToolIntent(t, c) in t.outbox {
      if c.run != run { assert ToolIntent(s, c) in s.outbox; }
    }
  }

  /** A message brings its own session up to date. */
  lemma MessagedAgrees(s: Store, run: Id, m: Id, role: string, text: string, toolCall: Option<string>, complete: bool)
    requires run in s.runs && m !in s.messages
    requires SessionsAgree(s, Some(s.runs[run].session)) && MessagesAgree(s) && ToolsAgree(s)
    ensures Agrees(Messaged(s, run, m, role, text, toolCall, complete))
  {
    var x := s.runs[run].session;
    var row := Message(s.runs[run].tenant, x, Some(run), role, text, toolCall, complete, 1);
    AddedAgrees(s, run, m, row);
    var t := Enqueued(Added(s, run, m, row), OfMessage(m));
    EnqueuedAgrees(t, x);
    RefreshedAgrees(Enqueued(t, OfSession(x)), run);
  }

  // ------------------------------------------------------------ operations

  /** Changing runs without adding any, or what they are owned by, changes no obligation. */
  lemma RunsMovedAgree(s: Store, runs: map<Id, RunRow>)
    requires Agrees(s) && runs.Keys == s.runs.Keys && forall r :: r in runs ==> runs[r].contract == s.runs[r].contract
    ensures Agrees(s.(runs := runs))
  {
    var t := s.(runs := runs);
    forall m | m in t.messages && t.messages[m].session in t.sessions && t.sessions[t.messages[m].session].contract
      ensures Indexed(t, m)
    {
      assert Indexed(s, m);
    }
  }

  lemma TransitionAgrees(s: Store, run: Id, status: Status, output: Option<string>, m: Id)
    requires Agrees(s) && m !in s.messages
    ensures Agrees(Transition(s, run, status, output, m).1)
  {
    hide Agrees, Messaged;
    if run in s.runs {
      var next := s.runs[run].(status := status, output := output, finished := Terminal(status));
      RunsMovedAgree(s, s.runs[run := next]);
      var moved := s.(runs := s.runs[run := next]);
      if output.Some? {
        ExceptNone(moved, next.session);
        MessagedAgrees(moved, run, m, "assistant", output.value, None, true);
      }
    }
  }

  lemma ExceptNone(s: Store, x: Id)
    requires Agrees(s)
    ensures SessionsAgree(s, Some(x)) && MessagesAgree(s) && ToolsAgree(s)
  {
  }

  lemma RequestCancelAgrees(s: Store, run: Id)
    requires Agrees(s)
    ensures Agrees(RequestCancel(s, run).1)
  {
    hide Agrees;
    if run in s.runs {
      RunsMovedAgree(s, s.runs[run := s.runs[run].(cancelRequested := true)]);
    }
  }

  lemma ToolPutAgrees(s: Store, c: Call, tool: Tool)
    requires Agrees(s)
    ensures Agrees(Enqueued(s.(tools := s.tools[c := tool]), OfTool(c)))
  {
    var t := Enqueued(s.(tools := s.tools[c := tool]), OfTool(c));
    forall m | m in t.messages && t.messages[m].session in t.sessions && t.sessions[t.messages[m].session].contract
      ensures Indexed(t, m)
    {
      assert Indexed(s, m);
    }
  }

  lemma BeginToolAgrees(s: Store, c: Call, m: Id)
    requires Agrees(s) && m !in s.messages
    ensures Agrees(BeginTool(s, c, m).1)
  {
    hide Agrees, Messaged;
    if c.run in s.runs {
      var row := s.runs[c.run];
      var tool := Tool(row.tenant, row.session, false, false, None, 1, 1);
      ToolPutAgrees(s, c, tool);
      var begun := Enqueued(s.(tools := s.tools[c := tool]), OfTool(c));
      ExceptNone(begun, row.session);
      MessagedAgrees(begun, c.run, m, "tool", "", Some(c.call), false);
    }
  }

  lemma MessagePutAgrees(s: Store, m: Id, row: Message)
    requires SessionsAgree(s, None) && MessagesAgree(s) && ToolsAgree(s)
    requires m in s.messages && row.session == s.messages[m].session
    ensures var t := Enqueued(s.(messages := s.messages[m := row]), OfMessage(m));
      SessionsAgree(t, None) && MessagesAgree(t) && ToolsAgree(t)
  {
    var t := Enqueued(s.(messages := s.messages[m := row]), OfMessage(m));
    forall k | k in t.messages && t.messages[k].session in t.sessions && t.sessions[t.messages[k].session].contract
      ensures Indexed(t, k)
    {
      if k != m { assert Indexed(s, k); }
    }
  }

  lemma AnchoredAgrees(s: Store, anchor: Option<Id>, text: string)
    requires Agrees(s)
    ensures Agrees(Anchored(s, anchor, text))
  {
    hide SessionsAgree, MessagesAgree, ToolsAgree, Enqueued;
    if anchor.Some? && anchor.value in s.messages {
      var row := s.messages[anchor.value];
      MessagePutAgrees(s, anchor.value, row.(text := text, complete := true, sourceVersion := row.sourceVersion + 1));
    }
  }

  lemma FinishToolAgrees(s: Store, c: Call, o: Outcome, anchor: Option<Id>)
    requires Agrees(s)
    ensures Agrees(FinishTool(s, c, o, anchor).1)
  {
    hide Agrees, Anchored, Enqueued;
    if c in s.tools {
      var tool := s.tools[c];
      var ended := tool.(finished := true, failed := o.Errored? || o.flagged,
                         result := if o.Errored? then None else Some(o.text), sourceVersion := tool.sourceVersion + 1);
      ToolPutAgrees(s, c, ended);
      AnchoredAgrees(Enqueued(s.(tools := s.tools[c := ended]), OfTool(c)), anchor, o.text);
    }
  }

  /** A session that is new, or was owned before, may change freely before it is enqueued. */
  lemma SessionPutAgrees(s: Store, x: Id, row: Session)
    requires Agrees(s) && Linked(s)
    requires x in s.sessions ==> row.aclVersion == s.sessions[x].aclVersion && row.contract == s.sessions[x].contract
    ensures var t := s.(sessions := s.sessions[x := row]);
      SessionsAgree(t, Some(x)) && MessagesAgree(t) && ToolsAgree(t)
  {
    var t := s.(sessions := s.sessions[x := row]);
    forall m | m in t.messages && t.messages[m].session in t.sessions && t.sessions[t.messages[m].session].contract
      ensures Indexed(t, m)
    {
      assert Indexed(s, m);
    }
  }

  lemma CreateSessionAgrees(s: Store, x: Id, tenant: string, agent: string, title: string, parent: Option<Id>)
    requires Agrees(s) && Linked(s)
    ensures Agrees(CreateSession(s, x, tenant, agent, title, parent).1)
  {
    hide Agrees, Linked, Found, Enqueued, SessionsAgree, MessagesAgree, ToolsAgree;
    var (r, t) := CreateSession(s, x, tenant, agent, title, parent);
    if r.Ok? {
      var root := if parent.Some? && parent.value in s.sessions
        && s.sessions[parent.value].root.Some? then s.sessions[parent.value].root else parent;
      FoundIsThere(s, parent, tenant, agent);
      var row := Session(tenant, agent, false, true, parent, root, false, title, 1, 1);
      SessionPutAgrees(s, x, row);
      EnqueuedAgrees(s.(sessions := s.sessions[x := row]), x);
    }
  }

  lemma FoundIsThere(s: Store, x: Option<Id>, tenant: string, agent: string)
    ensures x.Some? && Found(s, x.value, tenant, agent).Ok? ==> x.value in s.sessions
  {
  }

  lemma EditSessionAgrees(s: Store, x: Id, tenant: string, agent: string, e: Edit)
    requires Agrees(s) && Linked(s)
    ensures Agrees(EditSession(s, x, tenant, agent, e).1)
  {
    hide Agrees, Linked, Enqueued, SessionsAgree, MessagesAgree, ToolsAgree;
    if x in s.sessions {
      var row := Edited(s.sessions[x], e);
      var touched := row.(sourceVersion := row.sourceVersion + 1);
      SessionPutAgrees(s, x, touched);
      EnqueuedAgrees(s.(sessions := s.sessions[x := touched]), x);
      assert s.sessions[x := row][x := touched] == s.sessions[x := touched];
    }
  }

  lemma PurgeAgrees(s: Store, x: Id, tenant: string, agent: string)
    requires Agrees(s) && Linked(s)
    ensures Agrees(Purge(s, x, tenant, agent).1)
  {
    var (r, t) := Purge(s, x, tenant, agent);
    if r.Ok? {
      forall m | m in t.messages && t.messages[m].session in t.sessions && t.sessions[t.messages[m].session].contract
        ensures Indexed(t, m)
      {
        assert Indexed(s, m);
      }
    }
  }

  /** Startup: whatever was missing is there afterwards. */
  lemma BackfillAgrees(s: Store)
    ensures Agrees(Backfilled(s))
  {
    var t := Backfilled(s);
    forall m | m in t.messages && t.messages[m].session in t.sessions && t.sessions[t.messages[m].session].contract
      ensures Indexed(t, m)
    {
      assert MessageIntent(t, m) == MessageIntent(s, m);
    }
  }

  // ------------------------------------------------------------ acceptance

  /** Acceptance takes over a session whose history was written before. */
  predicate Adopts(s: Store, q: Request, c: Context) {
    q.session in s.sessions && !s.sessions[q.session].contract && Accept(s, q, c, "").0.Ok? && Clashes(s, q) == {}
  }

  ghost predicate HistoryIndexed(s: Store, x: Id) {
    forall m :: m in s.messages && s.messages[m].session == x ==> Indexed(s, m)
  }

  /** Everything but the adopted history is in agreement after an acceptance. */
  lemma AcceptAgrees(s: Store, q: Request, c: Context, m: Id)
    requires Agrees(s) && Linked(s) && m !in s.messages
    requires Adopts(s, q, c) ==> HistoryIndexed(s, q.session)
    ensures Agrees(Accept(s, q, c, m).1)
  {
    hide Messaged, Agrees;
    var t := Accept(s, q, c, m).1;
    if t != s {
      var row := AcceptedSession(s, q, c);
      var run := AcceptedRow(s, q, c);
      var begun := s.(sessions := s.sessions[q.session := row], runs := s.runs[q.run := run]);
      AcceptedAgrees(s, q, row, run);
      MessagedAgrees(begun, q.run, m, "user", q.input, None, true);
    }
  }

  lemma AcceptedAgrees(s: Store, q: Request, row: Session, run: RunRow)
    requires Agrees(s) && Linked(s) && q.run !in s.runs && run.session == q.session
    requires q.session in s.sessions ==> row.aclVersion == s.sessions[q.session].aclVersion
    requires q.session in s.sessions ==> s.sessions[q.session].contract || HistoryIndexed(s, q.session)
    ensures var t := s.(sessions := s.sessions[q.session := row], runs := s.runs[q.run := run]);
      SessionsAgree(t, Some(q.session)) && MessagesAgree(t) && ToolsAgree(t)
  {
    var t := s.(sessions := s.sessions[q.session := row], runs := s.runs[q.run := run]);
    forall m | m in t.messages && t.messages[m].session in t.sessions && t.sessions[t.messages[m].session].contract
      ensures Indexed(t, m)
    {
      assert Indexed(s, m);
    }
  }

  /** Acceptance keeps the agreement exactly when it adopts no history that was never indexed. */
  lemma AcceptIsExact(s: Store, q: Request, c: Context, m: Id)
    requires Agrees(s) && Linked(s) && m !in s.messages
    ensures Agrees(Accept(s, q, c, m).1) <==> (Adopts(s, q, c) ==> HistoryIndexed(s, q.session))
  {
    if Adopts(s, q, c) && !HistoryIndexed(s, q.session) {
      var k :| k in s.messages && s.messages[k].session == q.session && !Indexed(s, k);
      AdoptedStaysUnindexed(s, q, c, m, k);
    } else {
      AcceptAgrees(s, q, c, m);
    }
  }

  lemma AdoptedStaysUnindexed(s: Store, q: Request, c: Context, m: Id, k: Id)
    requires Adopts(s, q, c) && Linked(s) && m !in s.messages
    requires k in s.messages && s.messages[k].session == q.session && !Indexed(s, k)
    ensures !Agrees(Accept(s, q, c, m).1)
  {
    hide Messaged, Linked, Clashes;
    var t := Accept(s, q, c, m).1;
    var begun :=
      s.(sessions := s.sessions[q.session := AcceptedSession(s, q, c)], runs := s.runs[q.run := AcceptedRow(s, q, c)]);
    assert t == Messaged(begun, q.run, m, "user", q.input, None, true);
    MessagedShape(begun, q.run, m, "user", q.input, None, true);
    assert t.messages[k] == s.messages[k] && t.sessions[q.session].contract;
    assert MessageIntent(t, k) == MessageIntent(s, k);
    assert !Indexed(t, k);
  }

  /** A session written before the run writer, with one message that was never indexed. */
  const Legacy := Store(
    map["x" := Session("t", "a", false, false, None, None, false, "", 1, 1)], map[],
    map["m" := Message("t", "x", None, "user", "hello", None, true, 1)], map[], {}, map[])

  /** Accepting a run into it breaks the agreement. */
  lemma LegacyAdoptionBreaks()
    ensures var q, c := Request("r", "x", "k", "d", "next"), Context("t", "a", None);
      && SessionLineage.Forest(Legacy) && Agrees(Legacy) && Adopts(Legacy, q, c) && !HistoryIndexed(Legacy, "x")
      && !Agrees(Accept(Legacy, q, c, "n").1)
  {
    var q, c := Request("r", "x", "k", "d", "next"), Context("t", "a", None);
    LegacyIsForest();
    SessionLineage.ForestIsLinked(Legacy);
    LegacyAgrees();
    AdoptionOf(Legacy, q, c);
    hide Accept, Agrees, Linked, SessionLineage.Forest;
    AdoptedStaysUnindexed(Legacy, q, c, "n", "m");
  }

  lemma LegacyAgrees()
    ensures Agrees(Legacy) && !Indexed(Legacy, "m") && !HistoryIndexed(Legacy, "x")
  {
    assert !Indexed(Legacy, "m");
  }

  lemma AdoptionOf(s: Store, q: Request, c: Context)
    requires s.runs == map[] && s.reserved == map[] && q.session in s.sessions && c.parentRun == None
    requires !s.sessions[q.session].contract && !s.sessions[q.session].quarantined
    requires s.sessions[q.session].tenant == c.tenant
    ensures Adopts(s, q, c)
  {
    hide Messaged;
    assert Clashes(s, q) == {};
  }

  lemma LegacyIsForest()
    ensures SessionLineage.Forest(Legacy)
  {
    var p := SessionLineage.SessionParents(Legacy);
    assert ParentChains.Chain(p, "x", ["x"]);
    assert SessionLineage.RunParents(Legacy) == map[];
  }

  // ------------------------------------------------------------ whole runs

  predicate Indexes(s: Store, op: Op) {
    op.DoAccept? && Adopts(s, op.q, op.c) ==> forall m :: m in s.messages && s.messages[m].session == op.q.session ==>
      Indexed(s, m)
  }

  lemma StepKeepsAgreement(s: Store, op: Op)
    requires Agrees(s) && Linked(s) && Sound(s, op) && Indexes(s, op)
    ensures Agrees(Step(s, op))
  {
    hide Agrees, Linked, Accept, Transition, RequestCancel, BeginTool, FinishTool, CreateSession, EditSession, Purge;
    hide Backfilled;
    match op
    case DoAccept(q, c, m) => AcceptAgrees(s, q, c, m);
    case DoTransition(run, status, output, m) => TransitionAgrees(s, run, status, output, m);
    case DoRequestCancel(run) => RequestCancelAgrees(s, run);
    case DoReserve(run, tenant, session) => ReserveAgrees(s, run, tenant, session);
    case DoBegin(call, m) => BeginToolAgrees(s, call, m);
    case DoFinish(call, o, anchor) => FinishToolAgrees(s, call, o, anchor);
    case DoCreate(x, tenant, agent, title, parent) => CreateSessionAgrees(s, x, tenant, agent, title, parent);
    case DoEdit(x, tenant, agent, e) => EditSessionAgrees(s, x, tenant, agent, e);
    case DoPurge(x, tenant, agent) => PurgeAgrees(s, x, tenant, agent);
    case DoBackfill => BackfillAgrees(s);
  }

  lemma ReserveAgrees(s: Store, run: Id, tenant: string, session: Id)
    requires Agrees(s)
    ensures Agrees(ReserveCancel(s, run, tenant, session).1)
  {
    var t := ReserveCancel(s, run, tenant, session).1;
    forall m | m in t.messages && t.messages[m].session in t.sessions && t.sessions[t.messages[m].session].contract
      ensures Indexed(t, m)
    {
      assert Indexed(s, m);
    }
  }

  /** No acceptance of the sequence takes over history that was never indexed. */
  predicate AllIndex(s: Store, ops: seq<Op>)
    decreases |ops|
  {
    ops == [] || (Indexes(s, ops[0]) && AllIndex(Step(s, ops[0]), ops[1..]))
  }

  lemma {:induction false} RunKeepsAgreement(s: Store, ops: seq<Op>)
    requires Agrees(s) && SessionLineage.Forest(s) && Legal(s, ops) && AllIndex(s, ops)
    ensures Agrees(Run(s, ops))
    decreases |ops|
  {
    hide Agrees, SessionLineage.Forest, Linked, Sound, Step, Indexes;
    if ops != [] {
      SessionLineage.ForestIsLinked(s);
      StepKeepsAgreement(s, ops[0]);
      SessionLineage.StepKeepsForest(s, ops[0]);
      RunKeepsAgreement(Step(s, ops[0]), ops[1..]);
    }
  }

  /** Startup establishes the agreement from any rows, and the store then keeps it. */
  lemma StartedStoreAgrees(s: Store, ops: seq<Op>)
    requires SessionLineage.Forest(s) && Legal(Backfilled(s), ops) && AllIndex(Backfilled(s), ops)
    ensures Agrees(Run(Backfilled(s), ops))
  {
    hide Agrees, SessionLineage.Forest, Backfilled, Legal, AllIndex, Run;
    BackfillAgrees(s);
    SessionLineage.StepKeepsForest(s, DoBackfill);
    assert Step(s, DoBackfill) == Backfilled(s);
    RunKeepsAgreement(Backfilled(s), ops);
  }

  /** A purge tells the index about the session and its messages, at versions above every earlier one. */
  lemma PurgeNotifies(s: Store, x: Id, tenant: string, agent: string, m: Id)
    requires Purge(s, x, tenant, agent).0.Ok? && m in s.messages && s.messages[m].session == x
    ensures var outbox, row := Purge(s, x, tenant, agent).1.outbox, s.sessions[x];
      && Intent(tenant, OfSession(x), Delete, row.sourceVersion + 1, row.aclVersion) in outbox
      && Intent(tenant, OfMessage(m), Delete, s.messages[m].sourceVersion + 1, row.aclVersion) in outbox
  {
  }

  // ------------------------------------------------------------- purges

  /** The index is told that the source is gone, above its last version. */
  ghost predicate Noticed(outbox: set<Intent>, source: Source, version: nat) {
    exists i :: i in outbox && i.source == source && i.operation.Delete? && i.sourceVersion > version
  }

  /** So it is for the session and all its messages and tool invocations. */
  ghost predicate AllNoticed(s: Store, x: Id, outbox: set<Intent>)
    requires x in s.sessions
  {
    && Noticed(outbox, OfSession(x), s.sessions[x].sourceVersion)
    && (forall m :: m in s.messages && s.messages[m].session == x ==>
        Noticed(outbox, OfMessage(m), s.messages[m].sourceVersion))
    && (forall c :: c in s.tools && s.tools[c].session == x ==> Noticed(outbox, OfTool(c), s.tools[c].sourceVersion))
  }

  predicate HasTools(s: Store, x: Id) {
    exists c :: c in s.tools && s.tools[c].session == x
  }

  predicate NoToolDeletes(s: Store) {
    forall i :: i in s.outbox && i.source.OfTool? ==> i.operation.Upsert?
  }

  predicate OnlyUpserts(s: Store, t: Store) {
    forall i :: i in t.outbox && i !in s.outbox ==> i.operation.Upsert?
  }

  lemma TransitionUpserts(s: Store, run: Id, status: Status, output: Option<string>, m: Id)
    ensures OnlyUpserts(s, Transition(s, run, status, output, m).1)
  {
    hide Messaged;
    if run in s.runs && output.Some? {
      var next := s.runs[run].(status := status, output := output, finished := Terminal(status));
      MessagedShape(s.(runs := s.runs[run := next]), run, m, "assistant", output.value, None, true);
    }
  }

  lemma AcceptUpserts(s: Store, q: Request, c: Context, m: Id)
    ensures OnlyUpserts(s, Accept(s, q, c, m).1)
  {
    hide Messaged, Clashes, ParentAllowed;
    var row, run := AcceptedSession(s, q, c), AcceptedRow(s, q, c);
    var begun := s.(sessions := s.sessions[q.session := row], runs := s.runs[q.run := run]);
    MessagedShape(begun, q.run, m, "user", q.input, None, true);
  }

  lemma BeginUpserts(s: Store, c: Call, m: Id)
    ensures OnlyUpserts(s, BeginTool(s, c, m).1)
  {
    hide Messaged, Enqueued;
    if c.run in s.runs {
      var row := s.runs[c.run];
      var put := s.(tools := s.tools[c := Tool(row.tenant, row.session, false, false, None, 1, 1)]);
      EnqueuedShape(put, OfTool(c));
      MessagedShape(Enqueued(put, OfTool(c)), c.run, m, "tool", "", Some(c.call), false);
    }
  }

  lemma FinishUpserts(s: Store, c: Call, o: Outcome, anchor: Option<Id>)
    ensures OnlyUpserts(s, FinishTool(s, c, o, anchor).1)
  {
  }

  lemma OtherUpserts(s: Store, op: Op)
    requires op.DoRequestCancel? || op.DoReserve? || op.DoCreate? || op.DoEdit? || op.DoBackfill?
    ensures OnlyUpserts(s, Step(s, op))
  {
  }

  /** A purge says nothing new about tool invocations. */
  lemma PurgeIsSilentAboutTools(s: Store, x: Id, tenant: string, agent: string, i: Intent)
    requires i in Purge(s, x, tenant, agent).1.outbox && i !in s.outbox
    ensures !i.source.OfTool?
  {
  }

  lemma PurgeDeletesNoTool(s: Store, x: Id, tenant: string, agent: string)
    requires NoToolDeletes(s)
    ensures NoToolDeletes(Purge(s, x, tenant, agent).1)
  {
    hide Purge;
    var outbox := Purge(s, x, tenant, agent).1.outbox;
    forall i | i in outbox && i.source.OfTool? ensures i.operation.Upsert? {
      if i !in s.outbox { PurgeIsSilentAboutTools(s, x, tenant, agent, i); }
    }
  }

  lemma StepDeletesNoTool(s: Store, op: Op)
    requires NoToolDeletes(s)
    ensures NoToolDeletes(Step(s, op))
  {
    hide Accept, Transition, RequestCancel, ReserveCancel, BeginTool, FinishTool, CreateSession, EditSession, Purge;
    hide Backfilled;
    match op
    case DoAccept(q, c, m) => AcceptUpserts(s, q, c, m);
    case DoTransition(run, status, output, m) => TransitionUpserts(s, run, status, output, m);
    case DoBegin(call, m) => BeginUpserts(s, call, m);
    case DoFinish(call, o, anchor) => FinishUpserts(s, call, o, anchor);
    case DoPurge(x, tenant, agent) => PurgeDeletesNoTool(s, x, tenant, agent);
    case _ => OtherUpserts(s, op);
  }

  /** No operation ever tells the index that a tool invocation is gone. */
  lemma {:induction false} RunDeletesNoTool(s: Store, ops: seq<Op>)
    requires NoToolDeletes(s)
    ensures NoToolDeletes(Run(s, ops))
    decreases |ops|
  {
    hide Step, NoToolDeletes;
    if ops != [] {
      StepDeletesNoTool(s, ops[0]);
      RunDeletesNoTool(Step(s, ops[0]), ops[1..]);
    }
  }

  /**
   A purge leaves a delete notice for everything of the session if and only if the session has no tool invocations.
   */
  lemma PurgeNoticesAreExact(s: Store, x: Id, tenant: string, agent: string)
    requires NoToolDeletes(s) && Purge(s, x, tenant, agent).0.Ok?
    ensures x in s.sessions
    ensures AllNoticed(s, x, Purge(s, x, tenant, agent).1.outbox) <==> !HasTools(s, x)
  {
    PurgeDeletesNoTool(s, x, tenant, agent);
    var outbox := Purge(s, x, tenant, agent).1.outbox;
    var row := s.sessions[x];
    assert outbox == s.outbox + DeleteIntents(s, x);
    hide Purge;
    if HasTools(s, x) {
      var c :| c in s.tools && s.tools[c].session == x;
      assert !Noticed(outbox, OfTool(c), s.tools[c].sourceVersion);
    } else {
      var i := Intent(row.tenant, OfSession(x), Delete, row.sourceVersion + 1, row.aclVersion);
      assert i in outbox;
      forall m | m in s.messages && s.messages[m].session == x
        ensures Noticed(outbox, OfMessage(m), s.messages[m].sourceVersion)
      {
        var j := Intent(row.tenant, OfMessage(m), Delete, s.messages[m].sourceVersion + 1, row.aclVersion);
        assert j in outbox;
      }
    }
  }

  /** In any store the operations lead to, a purge leaves tool invocations behind in the index, and nothing else. */
  lemma ReachablePurgesAreExact(ops: seq<Op>, x: Id, tenant: string, agent: string)
    requires Purge(Run(Empty, ops), x, tenant, agent).0.Ok?
    ensures var s := Run(Empty, ops);
      x in s.sessions && (AllNoticed(s, x, Purge(s, x, tenant, agent).1.outbox) <==> !HasTools(s, x))
  {
    assert NoToolDeletes(Empty);
    RunDeletesNoTool(Empty, ops);
    hide Purge, Run, AllNoticed, HasTools, NoToolDeletes;
    PurgeNoticesAreExact(Run(Empty, ops), x, tenant, agent);
  }

  const Invoked := Call("r", "c")

  /** An archived session with one finished run and its tool invocation, all indexed. */
  const Invocation := Backfilled(
    Store(map["x" := Session("t", "a", false, true, None, None, true, "", 1, 1)],
          map["r" := RunRow("t", "x", "k", "d", Failed, None, true, false, None, true)],
          map[], map[Invoked := Tool("t", "x", false, false, None, 1, 1)], {}, map[]))

  /** Its purge succeeds, and the index keeps the invocation. */
  lemma PurgedToolStaysIndexed()
    ensures SessionLineage.Forest(Invocation) && Agrees(Invocation) && NoToolDeletes(Invocation)
    ensures var (r, t) := Purge(Invocation, "x", "t", "a");
      && r.Ok? && Invoked !in t.tools && ToolIntent(Invocation, Invoked) in t.outbox
      && !AllNoticed(Invocation, "x", t.outbox)
  {
    var bare := Invocation.(outbox := {});
    var s := Invocation;
    assert s == Backfilled(bare);
    BackfillAgrees(bare);
    SingleIsForest(s);
    hide Backfilled, Agrees, SessionLineage.Forest;
    OnlyToolPurged(s);
    InvocationDeletesNothing();
    PurgeNoticesAreExact(s, "x", "t", "a");
    assert HasTools(s, "x") by { assert Invoked in s.tools && s.tools[Invoked].session == "x"; }
    InvocationIsIndexed();
  }

  lemma InvocationDeletesNothing()
    ensures NoToolDeletes(Invocation)
  {
  }

  lemma InvocationIsIndexed()
    ensures Invoked in Invocation.tools && ToolIntent(Invocation, Invoked) in Invocation.outbox
  {
  }

  lemma OnlyToolPurged(s: Store)
    requires s.sessions.Keys == {"x"} && s.sessions["x"].tenant == "t" && s.sessions["x"].agent == "a"
    requires !s.sessions["x"].quarantined && s.sessions["x"].archived && s.sessions["x"].parent == None
    requires s.runs.Keys == {"r"} && s.runs["r"].status == Failed
    requires forall c :: c in s.tools ==> s.tools[c].session == "x"
    ensures var (r, t) := Purge(s, "x", "t", "a"); r.Ok? && t.tools == map[] && s.outbox <= t.outbox
  {
    assert Removable(s, "x") && !RootReferenced(s, "x");
  }

  lemma SingleIsForest(s: Store)
    requires s.sessions.Keys == {"x"} && s.sessions["x"].parent == None && s.sessions["x"].root == None
    requires s.sessions["x"].tenant == "t"
    requires s.runs.Keys == {"r"} && s.runs["r"].session == "x" && s.runs["r"].tenant == "t"
    requires s.runs["r"].parentRun == None
    requires s.messages == map[] && forall c :: c in s.tools ==> c.run == "r" && s.tools[c].session == "x"
    ensures SessionLineage.Forest(s)
  {
    var p, q := SessionLineage.SessionParents(s), SessionLineage.RunParents(s);
    assert ParentChains.Chain(p, "x", ["x"]) && ParentChains.Chain(q, "r", ["r"]);
    forall x, path | x in s.sessions && ParentChains.Chain(p, x, path) ensures path == ["x"] {
      ParentChains.ChainIsUnique(p, "x", path, ["x"]);
    }
  }
}
