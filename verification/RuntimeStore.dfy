/** The store object: each method is one transaction, statement by statement, against its specification. */
module RuntimeStore {
  import opened Prelude
  import opened RuntimeTables
  import opened RunAutomaton
  import RuntimeEffects

  class SqliteRuntimeStore {
    var sessions: map<Id, Session>
    var runs: map<Id, RunRow>
    var messages: map<Id, Message>
    var tools: map<Call, Tool>
    var outbox: set<Intent>
    var reserved: map<Id, Reservation>

    constructor ()
      ensures View() == Empty
    {
      sessions, runs, messages, tools, outbox, reserved := map[], map[], map[], map[], {}, map[];
    }

    function View(): Store
      reads this
    {
      Store(sessions, runs, messages, tools, outbox, reserved)
    }

    method EnqueueSource(source: Source)
      modifies this`outbox
      ensures View() == Enqueued(old(View()), source)
    {
      match source {
        case OfSession(x) =>
          if x in sessions { outbox := outbox + {SessionIntent(View(), x)}; }
        case OfMessage(m) =>
          if m in messages && messages[m].session in sessions { outbox := outbox + {MessageIntent(View(), m)}; }
        case OfTool(c) =>
          if c in tools { outbox := outbox + {ToolIntent(View(), c)}; }
      }
    }

    method RefreshTool(c: Call)
      requires c in tools
      modifies this`tools, this`outbox
      ensures var bumped := old(tools)[c].(sourceVersion := old(tools)[c].sourceVersion + 1);
        View() == Enqueued(old(View()).(tools := old(tools)[c := bumped]), OfTool(c))
      ensures tools.Keys == old(tools.Keys)
    {
      hide Enqueued;
      tools := tools[c := tools[c].(sourceVersion := tools[c].sourceVersion + 1)];
      EnqueueSource(OfTool(c));
    }

    /** The tools of the run one after the other: a new version and its intent. */
    method RefreshTools(run: Id)
      modifies this`tools, this`outbox
      ensures View() == ToolsRefreshed(old(View()), run)
    {
      hide RefreshedPart, ToolsRefreshed, Enqueued;
      ghost var start := View();
      var rest := set c | c in tools && c.run == run;
      RefreshedNone(start);
      RefreshedAll(start, run);
      ghost var finished: set<Call> := {};
      while rest != {}
        invariant View() == RefreshedPart(start, finished) && tools.Keys == start.tools.Keys
        invariant finished !! rest && finished + rest == set c | c in start.tools && c.run == run
        decreases |rest|
      {
        var c :| c in rest;
        RefreshedOneMore(start, finished, c);
        RefreshTool(c);
        rest := rest - {c};
        finished := finished + {c};
      }
      assert finished == finished + rest;
    }

    /** `_message`. */
    method AppendMessage(run: Id, m: Id, role: string, text: string, toolCall: Option<string>, complete: bool)
      requires run in runs
      modifies this`sessions, this`messages, this`tools, this`outbox
      ensures View() == Messaged(old(View()), run, m, role, text, toolCall, complete)
    {
      var x := runs[run].session;
      messages := messages[m := Message(runs[run].tenant, x, Some(run), role, text, toolCall, complete, 1)];
      if x in sessions {
        sessions := sessions[x := sessions[x].(sourceVersion := sessions[x].sourceVersion + 1)];
      }
      EnqueueSource(OfMessage(m));
      EnqueueSource(OfSession(x));
      RefreshTools(run);
    }

    method AcceptRun(q: Request, c: Context, m: Id) returns (r: Result<Accepted>)
      modifies this
      ensures (r, View()) == Accept(old(View()), q, c, m)
    {
      hide Messaged;
      if q.session in sessions && sessions[q.session].quarantined {
        return Raised(Quarantined);
      }
      var rows := set k | k in runs && (k == q.run || (runs[k].session == q.session && runs[k].key == q.key));
      if rows != {} {
        if rows != {q.run} || runs[q.run].digest != q.digest {
          return Raised(Conflict);
        }
        return Ok(Accepted(runs[q.run], false));
      }
      var reservation := q.run in reserved;
      if reservation && reserved[q.run] != Reservation(c.tenant, q.session) {
        return Raised(Conflict);
      }
      var existing := q.session in sessions;
      if existing && sessions[q.session].tenant != c.tenant {
        return Raised(Denied);
      }
      var row: Session;
      if !existing {
        row := Session(c.tenant, c.agent, false, true, None, None, false, "", 1, 1);
      } else {
        row := sessions[q.session].(contract := true);
      }
      if c.parentRun.Some? {
        var p := c.parentRun.value;
        if p !in runs || runs[p].tenant != c.tenant || runs[p].session == q.session {
          return Raised(Invalid);
        }
        var above := runs[p].session;
        if existing && sessions[q.session].parent != Some(above) {
          return Raised(Invalid);
        }
        if !existing {
          var root := if above in sessions && sessions[above].root.Some? then sessions[above].root else Some(above);
          row := row.(parent := Some(above), root := root);
        }
      }
      sessions := sessions[q.session := row];
      runs := runs[q.run := RunRow(c.tenant, q.session, q.key, q.digest, Queued, None, false, reservation, c.parentRun,
        true)];
      if reservation {
        runs := runs[q.run := runs[q.run].(status := Cancelled, finished := true)];
      }
      assert runs == old(runs)[q.run := AcceptedRow(old(View()), q, c)];
      r := Ok(Accepted(runs[q.run], !reservation));
      AppendMessage(q.run, m, "user", q.input, None, true);
    }

    method TransitionRun(run: Id, status: Status, output: Option<string>, m: Id) returns (r: Result<RunRow>)
      modifies this
      ensures (r, View()) == Transition(old(View()), run, status, output, m)
    {
      hide Messaged;
      if RunQuarantined(View(), run) {
        return Raised(Quarantined);
      }
      if run !in runs {
        return Raised(Missing);
      }
      var current := runs[run];
      if Terminal(current.status) {
        return Ok(current);
      }
      if (!status.Running? && !Terminal(status)) || (status.Running? && !current.status.Queued?) {
        return Raised(Invalid);
      }
      runs := runs[run := current.(status := status, output := output, finished := Terminal(status))];
      r := Ok(runs[run]);
      if status.Success? && output.Some? {
        AppendMessage(run, m, "assistant", output.value, None, true);
      }
    }

    method RequestCancelRun(run: Id) returns (r: Result<RunRow>)
      modifies this
      ensures (r, View()) == RequestCancel(old(View()), run)
    {
      if RunQuarantined(View(), run) {
        return Raised(Quarantined);
      }
      if run !in runs {
        return Raised(Missing);
      }
      if !Terminal(runs[run].status) && !runs[run].cancelRequested {
        runs := runs[run := runs[run].(cancelRequested := true)];
      }
      return Ok(runs[run]);
    }

    method ReserveCancelRun(run: Id, tenant: string, session: Id) returns (r: Result<Status>)
      modifies this
      ensures (r, View()) == ReserveCancel(old(View()), run, tenant, session)
    {
      if SessionQuarantined(View(), session) || RunQuarantined(View(), run) {
        return Raised(Quarantined);
      }
      if run in runs {
        if runs[run].tenant != tenant || runs[run].session != session {
          return Raised(Denied);
        }
        return Ok(runs[run].status);
      }
      if run in reserved {
        if reserved[run] != Reservation(tenant, session) {
          return Raised(Denied);
        }
      } else {
        reserved := reserved[run := Reservation(tenant, session)];
      }
      return Ok(Cancelled);
    }

    method BeginInvocation(c: Call, m: Id) returns (r: Result<()>)
      modifies this
      ensures (r, View()) == BeginTool(old(View()), c, m)
    {
      hide Messaged;
      if RunQuarantined(View(), c.run) {
        return Raised(Quarantined);
      }
      if c.run !in runs || !runs[c.run].status.Running? {
        return Raised(Busy);
      }
      if c in tools {
        return Raised(Conflict);
      }
      tools := tools[c := Tool(runs[c.run].tenant, runs[c.run].session, false, false, None, 1, 1)];
      EnqueueSource(OfTool(c));
      AppendMessage(c.run, m, "tool", "", Some(c.call), false);
      return Ok(());
    }

    /** Also tells which message the result went to. */
    method FinishInvocation(c: Call, o: Outcome) returns (r: Result<()>, anchor: Option<Id>)
      modifies this
      ensures anchor.Some? ==> IsAnchor(old(View()), c, anchor.value)
      ensures r.Ok? && anchor.None? ==> forall m :: !IsAnchor(old(View()), c, m)
      ensures (r, View()) == FinishTool(old(View()), c, o, anchor)
    {
      if RunQuarantined(View(), c.run) {
        return Raised(Quarantined), None;
      }
      if c !in tools {
        return Raised(Missing), None;
      }
      if tools[c].finished {
        return Raised(Conflict), None;
      }
      var tool := tools[c];
      var result := if o.Errored? then None else Some(o.text);
      tools := tools[c := tool.(finished := true, failed := o.Errored? || o.flagged, result := result,
                                sourceVersion := tool.sourceVersion + 1)];
      EnqueueSource(OfTool(c));
      if m :| m in messages && IsAnchor(View(), c, m) {
        messages := messages[m := messages[m].(text := o.text, complete := true,
          sourceVersion := messages[m].sourceVersion + 1)];
        EnqueueSource(OfMessage(m));
        return Ok(()), Some(m);
      }
      return Ok(()), None;
    }

    method Create(x: Id, tenant: string, agent: string, title: string, parent: Option<Id>) returns (r: Result<()>)
      modifies this
      ensures (r, View()) == CreateSession(old(View()), x, tenant, agent, title, parent)
    {
      if x in sessions {
        return Raised(Conflict);
      }
      var root: Option<Id> := None;
      if parent.Some? {
        if Found(View(), parent.value, tenant, agent).Raised? {
          return Raised(Missing);
        }
        root := if sessions[parent.value].root.Some? then sessions[parent.value].root else parent;
      }
      sessions := sessions[x := Session(tenant, agent, false, true, parent, root, false, title, 1, 1)];
      EnqueueSource(OfSession(x));
      return Ok(());
    }

    method EditRow(x: Id, tenant: string, agent: string, e: Edit) returns (r: Result<()>)
      modifies this
      ensures (r, View()) == EditSession(old(View()), x, tenant, agent, e)
    {
      var found := Found(View(), x, tenant, agent);
      if found.Raised? {
        return Raised(found.error);
      }
      if !TitleAllowed(e) {
        return Raised(Invalid);
      }
      var row := Edited(sessions[x], e);
      sessions := sessions[x := row.(sourceVersion := row.sourceVersion + 1)];
      assert sessions == old(sessions)[x := row][x := row.(sourceVersion := row.sourceVersion + 1)];
      EnqueueSource(OfSession(x));
      return Ok(());
    }

    /** Tell the index about the session's messages and the session itself. */
    method NotifyDeletes(x: Id)
      requires x in sessions
      modifies this`outbox
      ensures outbox == old(outbox) + DeleteIntents(old(View()), x)
    {
      hide DeleteNotices, DeleteIntents, MessagesOf;
      ghost var start := View();
      var row := sessions[x];
      var all := MessagesOf(messages, x);
      var notices: set<Intent> := {};
      var rest := all;
      MessagesOfAreKnown(messages, x);
      NoNotices(start, row, all);
      while rest != {}
        invariant rest <= all && outbox == start.outbox && notices == DeleteNotices(start, row, all, rest)
        decreases |rest|
      {
        var m :| m in rest;
        OneMoreNotice(start, row, all, rest, m);
        rest := rest - {m};
        notices := notices + {Intent(row.tenant, OfMessage(m), Delete, messages[m].sourceVersion + 1, row.aclVersion)};
      }
      AllNotices(start, x);
      assert rest == {};
      outbox := outbox + (notices + {Intent(row.tenant, OfSession(x), Delete, row.sourceVersion + 1, row.aclVersion)});
    }

    method PurgeSession(x: Id, tenant: string, agent: string) returns (r: Result<()>)
      modifies this
      ensures (r, View()) == Purge(old(View()), x, tenant, agent)
    {
      hide Cascaded, DeleteIntents;
      var found := Found(View(), x, tenant, agent);
      if found.Raised? {
        return Raised(found.error);
      }
      if !found.value.archived {
        return Raised(Invalid);
      }
      if exists k :: k in runs && runs[k].session == x && !Terminal(runs[k].status) {
        return Raised(Busy);
      }
      if exists y :: y in sessions && sessions[y].parent == Some(x) {
        return Raised(Busy);
      }
      if RootReferenced(View(), x) {
        return Raised(Busy);
      }
      ghost var start := View();
      NotifyDeletes(x);
      CascadeIgnoresOutbox(start, x, outbox);
      CascadeKeepsTheRest(View(), x);
      DeleteRows(x);
      return Ok(());
    }

    /** The delete and what its foreign keys take along. */
    method DeleteRows(x: Id)
      modifies this`sessions, this`runs, this`messages, this`tools
      ensures View() == Cascaded(old(View()), x)
    {
      var after := Cascaded(View(), x);
      sessions, runs, messages, tools := after.sessions, after.runs, after.messages, after.tools;
    }

    /** Startup: one insert per kind of source. */
    method RestoreSearchIntents()
      modifies this`outbox
      ensures View() == Backfilled(old(View()))
    {
      var s := View();
      outbox := outbox + set x | x in s.sessions && s.sessions[x].contract :: SessionIntent(s, x);
      outbox := outbox + set m | m in s.messages && s.messages[m].session in s.sessions
        && s.sessions[s.messages[m].session].contract :: MessageIntent(s, m);
      outbox := outbox + set c | c in s.tools && c.run in s.runs && s.runs[c.run].contract :: ToolIntent(s, c);
    }

    /** Startup after a crash: answers whether it got through; a quarantined session stops it. */
    method Recover(m: Id) returns (ok: bool)
      requires FinishedIsTerminal(View())
      modifies this
      ensures RunsAdvance(old(View()), View()) && FinishedIsTerminal(View())
      ensures ok ==> (forall c :: !PendingTool(View(), c)) && (forall k :: !PendingRun(View(), k))
      ensures ok ==> ToolsRecovered(old(View()), tools, {}) && RunsRecovered(old(View()), runs, {})
      ensures (forall k :: !RunQuarantined(old(View()), k)) ==> ok
    {
      hide RunsAdvance, FinishedIsTerminal, PendingTool, PendingRun, Transition, FinishTool, RunQuarantined;
      hide ToolsRecovered, RunsRecovered;
      ghost var start := View();
      SameRunsAdvance(start, start);
      var pending := set c | c in tools && PendingTool(View(), c);
      OnlyKnownTools(View());
      NothingRecovered(start, pending);
      while pending != {}
        invariant View().sessions == start.sessions && ToolsRecovered(start, tools, pending)
        invariant RunsAdvance(start, View()) && FinishedIsTerminal(View()) && runs == start.runs
        invariant forall c :: PendingTool(View(), c) <==> c in pending
        decreases |pending|
      {
        var c :| c in pending;
        ghost var s := View();
        var r, anchor := FinishInvocation(c, Errored(RuntimeTables.Lost));
        FinishedIsNotPending(s, c, anchor);
        OneToolRecovered(start, s, c, anchor, pending);
        SameRunsAdvance(s, View());
        SameRunsAdvance(start, View());
        if r.Raised? {
          QuarantineStays(start, s, c.run);
          return false;
        }
        pending := pending - {c};
      }
      var unfinished := set k | k in runs && PendingRun(View(), k);
      OnlyKnownRuns(View());
      NoRunRecovered(start, View());
      while unfinished != {}
        invariant View().sessions == start.sessions
        invariant ToolsRecovered(start, tools, {}) && RunsRecovered(start, runs, unfinished)
        invariant RunsAdvance(start, View()) && FinishedIsTerminal(View())
        invariant forall c :: !PendingTool(View(), c)
        invariant forall k :: PendingRun(View(), k) <==> k in unfinished
        invariant runs.Keys == start.runs.Keys && forall k :: k in runs ==> runs[k].session == start.runs[k].session
        decreases |unfinished|
      {
        var k :| k in unfinished;
        ghost var s := View();
        var r := TransitionRun(k, Interrupted, Some(RuntimeTables.Lost), m);
        InterruptedIsNotPending(s, k, m);
        OneRunRecovered(start, s, k, m, unfinished);
        AdvanceFurther(start, s, View());
        if r.Raised? {
          QuarantineStays(start, s, k);
          return false;
        }
        unfinished := unfinished - {k};
      }
      return true;
    }
  }

  // ---------------------------------------------------------------- lemmas

  /** The tools refreshed so far. */
  function RefreshedPart(s: Store, some: set<Call>): Store {
    var tools := map c | c in s.tools :: if c in some then s.tools[c].(sourceVersion := s.tools[c].sourceVersion + 1)
      else s.tools[c];
    s.(tools := tools,
       outbox := s.outbox + set c | c in tools && c in some :: Intent(tools[c].tenant, OfTool(c), Upsert,
         tools[c].sourceVersion, tools[c].aclVersion))
  }

  lemma RefreshedNone(s: Store)
    ensures RefreshedPart(s, {}) == s
  {
  }

  lemma RefreshedAll(s: Store, run: Id)
    ensures RefreshedPart(s, set c | c in s.tools && c.run == run) == ToolsRefreshed(s, run)
  {
    var t, u := RefreshedPart(s, set c | c in s.tools && c.run == run), ToolsRefreshed(s, run);
    assert t.tools == u.tools;
    assert t.outbox == u.outbox;
  }

  lemma RefreshedOneMore(s: Store, some: set<Call>, c: Call)
    requires c in s.tools && c !in some
    ensures var t := RefreshedPart(s, some);
      c in t.tools && Enqueued(t.(tools := t.tools[c := t.tools[c].(sourceVersion := t.tools[c].sourceVersion + 1)]),
        OfTool(c))
                      == RefreshedPart(s, some + {c})
    ensures RefreshedPart(s, some).tools.Keys == s.tools.Keys
  {
    var t, u := RefreshedPart(s, some), RefreshedPart(s, some + {c});
    var put := t.(tools := t.tools[c := t.tools[c].(sourceVersion := t.tools[c].sourceVersion + 1)]);
    assert put.tools == u.tools;
    assert Enqueued(put, OfTool(c)).outbox == u.outbox;
  }

  function MessagesOf(messages: map<Id, Message>, x: Id): set<Id> {
    set m | m in messages && messages[m].session == x
  }

  lemma MessagesOfAreKnown(messages: map<Id, Message>, x: Id)
    ensures MessagesOf(messages, x) <= messages.Keys
  {
  }

  /** The notices for all messages but those still to be visited. */
  function DeleteNotices(s: Store, row: Session, all: set<Id>, rest: set<Id>): set<Intent> {
    set m | m in all && m !in rest && m in s.messages ::
      Intent(row.tenant, OfMessage(m), Delete, s.messages[m].sourceVersion + 1, row.aclVersion)
  }

  lemma NoNotices(s: Store, row: Session, all: set<Id>)
    ensures DeleteNotices(s, row, all, all) == {}
  {
  }

  lemma OneMoreNotice(s: Store, row: Session, all: set<Id>, rest: set<Id>, m: Id)
    requires m in s.messages && m in rest && rest <= all
    ensures DeleteNotices(s, row, all, rest - {m})
            == DeleteNotices(s, row, all, rest)
               + {Intent(row.tenant, OfMessage(m), Delete, s.messages[m].sourceVersion + 1, row.aclVersion)}
  {
  }

  lemma AllNotices(s: Store, x: Id)
    requires x in s.sessions
    ensures var row := s.sessions[x];
      DeleteIntents(s, x)
      == DeleteNotices(s, row, MessagesOf(s.messages, x), {})
         + {Intent(row.tenant, OfSession(x), Delete, row.sourceVersion + 1, row.aclVersion)}
  {
  }

  lemma CascadeKeepsTheRest(s: Store, x: Id)
    ensures Cascaded(s, x).outbox == s.outbox && Cascaded(s, x).reserved == s.reserved
  {
  }

  lemma CascadeIgnoresOutbox(s: Store, x: Id, outbox: set<Intent>)
    ensures Cascaded(s.(outbox := outbox), x) == Cascaded(s, x).(outbox := outbox)
  {
  }

  /** An unfinished tool of the run writer is ended as failed, with nothing returned; any other is as it was. */
  ghost predicate ToolsRecovered(s: Store, tools: map<Call, Tool>, left: set<Call>) {
    && tools.Keys == s.tools.Keys
    && forall c :: c in s.tools ==>
         tools[c] == if c.run in s.runs && s.runs[c.run].contract && !s.tools[c].finished && c !in left
                     then s.tools[c].(finished := true, failed := true, result := None,
                                      sourceVersion := s.tools[c].sourceVersion + 1)
                     else s.tools[c]
  }

  /** An unfinished run of the run writer is interrupted, its effects unknown; any other is as it was. */
  ghost predicate RunsRecovered(s: Store, runs: map<Id, RunRow>, left: set<Id>) {
    && runs.Keys == s.runs.Keys
    && forall k :: k in s.runs ==>
         runs[k] == if s.runs[k].contract && !s.runs[k].finished && k !in left
                    then s.runs[k].(status := Interrupted, output := Some(RuntimeTables.Lost), finished := true)
                    else s.runs[k]
  }

  lemma NothingRecovered(s: Store, pending: set<Call>)
    requires forall c :: PendingTool(s, c) <==> c in pending
    ensures ToolsRecovered(s, s.tools, pending)
  {
  }

  lemma OneToolRecovered(start: Store, s: Store, c: Call, anchor: Option<Id>, pending: set<Call>)
    requires ToolsRecovered(start, s.tools, pending) && c in pending && PendingTool(s, c) && s.runs == start.runs
    ensures var (r, t) := FinishTool(s, c, Errored(RuntimeTables.Lost), anchor);
      r.Ok? ==> ToolsRecovered(start, t.tools, pending - {c})
  {
    RuntimeEffects.FinishingIsExact(s, c, Errored(RuntimeTables.Lost), anchor);
    hide FinishTool;
  }

  lemma NoRunRecovered(start: Store, s: Store)
    requires s.runs == start.runs
    ensures RunsRecovered(start, s.runs, set k | k in s.runs && PendingRun(s, k))
  {
  }

  lemma OneRunRecovered(start: Store, s: Store, k: Id, m: Id, unfinished: set<Id>)
    requires RunsRecovered(start, s.runs, unfinished) && k in unfinished && PendingRun(s, k) && FinishedIsTerminal(s)
    ensures var (r, t) := Transition(s, k, Interrupted, Some(RuntimeTables.Lost), m);
      r.Ok? ==> t.tools == s.tools && RunsRecovered(start, t.runs, unfinished - {k})
  {
    RuntimeEffects.TransitionIsExact(s, k, Interrupted, Some(RuntimeTables.Lost), m);
    hide Transition;
  }

  lemma OnlyKnownTools(s: Store)
    ensures forall c :: PendingTool(s, c) ==> c in s.tools
  {
  }

  lemma OnlyKnownRuns(s: Store)
    ensures forall k :: PendingRun(s, k) ==> k in s.runs
  {
  }

  /** Finishing a pending tool succeeds outside quarantine and leaves exactly the other ones pending. */
  lemma FinishedIsNotPending(s: Store, c: Call, anchor: Option<Id>)
    requires PendingTool(s, c)
    ensures var (r, t) := FinishTool(s, c, Errored(RuntimeTables.Lost), anchor);
      && t.runs == s.runs && t.sessions == s.sessions
      && (r.Raised? ==> RunQuarantined(s, c.run))
      && (r.Ok? ==> forall d :: PendingTool(t, d) <==> PendingTool(s, d) && d != c)
  {
  }

  lemma InterruptedIsNotPending(s: Store, k: Id, m: Id)
    requires PendingRun(s, k) && FinishedIsTerminal(s)
    ensures var (r, t) := Transition(s, k, Interrupted, Some(RuntimeTables.Lost), m);
      && t.sessions == s.sessions && RunsAdvance(s, t) && FinishedIsTerminal(t)
      && (forall d :: PendingTool(t, d) <==> PendingTool(s, d))
      && t.runs.Keys == s.runs.Keys && (forall j :: j in s.runs ==> t.runs[j].session == s.runs[j].session)
      && (r.Raised? ==> RunQuarantined(s, k))
      && (r.Ok? ==> forall j :: PendingRun(t, j) <==> PendingRun(s, j) && j != k)
  {
    var (r, t) := Transition(s, k, Interrupted, Some(RuntimeTables.Lost), m);
    TransitionAdvances(s, k, Interrupted, Some(RuntimeTables.Lost), m);
    hide RunsAdvance;
  }

  lemma QuarantineStays(s: Store, t: Store, k: Id)
    requires RunQuarantined(t, k) && t.sessions == s.sessions && t.runs.Keys == s.runs.Keys
    requires forall j :: j in s.runs ==> t.runs[j].session == s.runs[j].session
    ensures RunQuarantined(s, k)
  {
  }

  lemma AdvanceFurther(s: Store, t: Store, u: Store)
    requires RunsAdvance(s, t) && RunsAdvance(t, u)
    ensures RunsAdvance(s, u)
  {
    forall r | r in s.runs ensures r in u.runs && Advances(s.runs[r], u.runs[r]) {
      AdvancesIsTransitive(s.runs[r], t.runs[r], u.runs[r]);
    }
  }
}
