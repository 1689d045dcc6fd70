/**
 What each transaction of the run store answers and writes, told by the rows before and after, and that no
 indexed row ever changes without a newer version and an intent for it.
 */
module RuntimeEffects {
  import opened Prelude
  import opened RuntimeTables
  import opened RunAutomaton

  predicate Locked(s: Store, x: Id) {
    x in s.sessions && s.sessions[x].quarantined
  }

  /** A run is over in all but the four statuses it can still leave. */
  lemma TerminalIsExact(st: Status)
    ensures !Terminal(st) <==> st in {Pending, Queued, Received, Running}
  {
  }

  // ----------------------------------------------------------- acceptance

  /** A run of this identifier, or one the session already has under the key. */
  predicate Taken(s: Store, q: Request) {
    exists r :: r in s.runs && (r == q.run || (s.runs[r].session == q.session && s.runs[r].key == q.key))
  }

  /** The request was accepted before, word for word, and no other run of the session has its key. */
  predicate Repeated(s: Store, q: Request) {
    && q.run in s.runs && s.runs[q.run].digest == q.digest
    && forall r :: r in s.runs && s.runs[r].session == q.session && s.runs[r].key == q.key ==> r == q.run
  }

  /** A child run needs a parent run of the tenant in another session, whose child the session is or becomes. */
  predicate GoodParent(s: Store, q: Request, c: Context) {
    c.parentRun.Some? ==>
      && c.parentRun.value in s.runs && s.runs[c.parentRun.value].tenant == c.tenant
      && s.runs[c.parentRun.value].session != q.session
      && (q.session in s.sessions ==> s.sessions[q.session].parent == Some(s.runs[c.parentRun.value].session))
  }

  lemma ClashesAreTaken(s: Store, q: Request)
    ensures Clashes(s, q) != {} <==> Taken(s, q)
    ensures Clashes(s, q) == {q.run} && s.runs[q.run].digest == q.digest <==> Repeated(s, q)
  {
    if Taken(s, q) {
      var r :| r in s.runs && (r == q.run || (s.runs[r].session == q.session && s.runs[r].key == q.key));
      assert r in Clashes(s, q);
    }
    if Repeated(s, q) {
      assert q.run in Clashes(s, q);
    }
    if Clashes(s, q) == {q.run} {
      assert q.run in Clashes(s, q);
      forall r | r in s.runs && s.runs[r].session == q.session && s.runs[r].key == q.key ensures r == q.run {
        assert r in Clashes(s, q);
      }
    }
  }

  /** When a request is accepted, repeated, or refused and why; a refusal or repetition changes nothing. */
  lemma AcceptanceIsExact(s: Store, q: Request, c: Context, m: Id)
    ensures var (r, t) := Accept(s, q, c, m);
      var free := !Locked(s, q.session) && !Taken(s, q);
      var foreign := q.run in s.reserved && s.reserved[q.run] != Reservation(c.tenant, q.session);
      var other := q.session in s.sessions && s.sessions[q.session].tenant != c.tenant;
      && (r == Raised(Quarantined) <==> Locked(s, q.session))
      && (r == Raised(Conflict) <==>
          !Locked(s, q.session) && ((Taken(s, q) && !Repeated(s, q)) || (!Taken(s, q) && foreign)))
      && (r == Raised(Denied) <==> free && !foreign && other)
      && (r == Raised(Invalid) <==> free && !foreign && !other && !GoodParent(s, q, c))
      && (r.Ok? <==> !Locked(s, q.session) && (Repeated(s, q) || (free && !foreign && !other && GoodParent(s, q, c))))
      && (r.Ok? && Taken(s, q) ==> r.value == Accepted(s.runs[q.run], false))
      && (r.Ok? && !Taken(s, q) ==> r.value.created == (q.run !in s.reserved))
      && (r.Raised? || Taken(s, q) ==> t == s)
  {
    ClashesAreTaken(s, q);
    hide Messaged, Clashes, Repeated, Taken, AcceptedSession;
  }

  /** The rows of a new run: its own, its session's and the user's message. */
  lemma AcceptanceWrites(s: Store, q: Request, c: Context, m: Id)
    requires Accept(s, q, c, m).0.Ok? && !Taken(s, q)
    ensures var t := Accept(s, q, c, m).1; var born := q.run in s.reserved;
      && t.runs == s.runs[q.run := RunRow(c.tenant, q.session, q.key, q.digest, if born then Cancelled else Queued,
          None, born, born, c.parentRun, true)]
      && t.messages
         == s.messages[m := Message(c.tenant, q.session, Some(q.run), "user", q.input, None, true, 1)]
      && t.sessions.Keys == s.sessions.Keys + {q.session} && t.reserved == s.reserved
      && (forall x :: x in s.sessions && x != q.session ==> t.sessions[x] == s.sessions[x])
      && var row := t.sessions[q.session];
         if q.session in s.sessions then
           row == s.sessions[q.session].(contract := true, sourceVersion := s.sessions[q.session].sourceVersion + 1)
         else
           && row.tenant == c.tenant && row.agent == c.agent && row.contract && !row.quarantined && !row.archived
           && row.title == "" && row.sourceVersion == 2 && row.aclVersion == 1
           && row.parent == (if c.parentRun.Some? then Some(s.runs[c.parentRun.value].session) else None)
  {
    AcceptanceIsExact(s, q, c, m);
    ClashesAreTaken(s, q);
    var begun := s.(sessions := s.sessions[q.session := AcceptedSession(s, q, c)],
      runs := s.runs[q.run := AcceptedRow(s, q, c)]);
    MessagedShape(begun, q.run, m, "user", q.input, None, true);
    hide Messaged, Clashes, Taken, Repeated;
  }

  // ------------------------------------------------- status and intents

  /** When a transition is made, and what an allowed one writes: the row, and the answer of a run that succeeds. */
  lemma TransitionIsExact(s: Store, run: Id, status: Status, output: Option<string>, m: Id)
    ensures var (r, t) := Transition(s, run, status, output, m);
      var locked := run in s.runs && Locked(s, s.runs[run].session);
      && (r == Raised(Quarantined) <==> locked)
      && (r == Raised(Missing) <==> run !in s.runs)
      && (r == Raised(Invalid)
          <==> run in s.runs && !locked && !Terminal(s.runs[run].status) && !Terminal(status)
               && !(status.Running? && s.runs[run].status.Queued?))
      && (r.Raised? ==> t == s && (r.error.Quarantined? || r.error.Missing? || r.error.Invalid?))
      && (r.Ok? && Terminal(s.runs[run].status) ==> t == s && r.value == s.runs[run])
      && (r.Ok? && !Terminal(s.runs[run].status) ==>
            && t.runs == s.runs[run := r.value] && t.reserved == s.reserved
            && r.value == s.runs[run].(status := status, output := output, finished := Terminal(status))
            && t.messages == (if status.Success? && output.Some? then s.messages[m := Message(s.runs[run].tenant,
                s.runs[run].session, Some(run), "assistant", output.value, None, true, 1)] else s.messages)
            && (!(status.Success? && output.Some?) ==> t == s.(runs := t.runs)))
  {
    if run in s.runs && output.Some? {
      var moved :=
        s.(runs := s.runs[run := s.runs[run].(status := status, output := output, finished := Terminal(status))]);
      MessagedShape(moved, run, m, "assistant", output.value, None, true);
    }
    hide Messaged;
  }

  /** Asking an unfinished run to cancel sets its intent; any other call changes nothing. */
  lemma RequestCancelIsExact(s: Store, run: Id)
    ensures var (r, t) := RequestCancel(s, run);
      var locked := run in s.runs && Locked(s, s.runs[run].session);
      && (r == Raised(Quarantined) <==> locked) && (r == Raised(Missing) <==> run !in s.runs)
      && (r.Ok? <==> run in s.runs && !locked)
      && (r.Ok? ==> r.value == t.runs[run] && (r.value.cancelRequested || Terminal(r.value.status)))
      && (r.Ok? && !Terminal(s.runs[run].status) ==>
            t == s.(runs := s.runs[run := s.runs[run].(cancelRequested := true)]))
      && (r.Raised? || Terminal(s.runs[run].status) ==> t == s)
  {
    if run in s.runs && s.runs[run].cancelRequested {
      assert s.runs[run := s.runs[run].(cancelRequested := true)] == s.runs;
    }
  }

  /**
   A reservation stands for its tenant and session only: there the run will be born cancelled, elsewhere it is
   refused.
   */
  lemma ReservationIsExact(s: Store, run: Id, tenant: string, session: Id)
    ensures var (r, t) := ReserveCancel(s, run, tenant, session);
      var locked := Locked(s, session) || (run in s.runs && Locked(s, s.runs[run].session));
      var mine := if run in s.runs then s.runs[run].tenant == tenant && s.runs[run].session == session
                  else run in s.reserved ==> s.reserved[run] == Reservation(tenant, session);
      && (r == Raised(Quarantined) <==> locked) && (r == Raised(Denied) <==> !locked && !mine)
      && (r.Ok? <==> !locked && mine)
      && (r.Ok? ==> r.value == if run in s.runs then s.runs[run].status else Cancelled)
      && (r.Ok? && run !in s.runs ==> t == s.(reserved := s.reserved[run := Reservation(tenant, session)]))
      && (r.Raised? || run in s.runs ==> t == s)
  {
    if run in s.reserved && s.reserved[run] == Reservation(tenant, session) {
      assert s.reserved[run := Reservation(tenant, session)] == s.reserved;
    }
  }

  // ---------------------------------------------------------------- tools

  /** A tool starts once per call, in a running run, with an open message that waits for its result. */
  lemma BeginningIsExact(s: Store, c: Call, m: Id)
    ensures var (r, t) := BeginTool(s, c, m);
      var locked := c.run in s.runs && Locked(s, s.runs[c.run].session);
      var running := c.run in s.runs && s.runs[c.run].status.Running?;
      && (r == Raised(Quarantined) <==> locked) && (r == Raised(Busy) <==> !locked && !running)
      && (r == Raised(Conflict) <==> !locked && running && c in s.tools)
      && (r.Ok? <==> !locked && running && c !in s.tools)
      && (r.Raised? ==> t == s)
      && (r.Ok? ==>
            && t.runs == s.runs && t.reserved == s.reserved
            && t.messages == s.messages[m := Message(s.runs[c.run].tenant, s.runs[c.run].session, Some(c.run), "tool",
                 "", Some(c.call), false, 1)]
            && t.tools.Keys == s.tools.Keys + {c}
            && t.tools[c].(sourceVersion := 1)
               == Tool(s.runs[c.run].tenant, s.runs[c.run].session, false, false, None, 1, 1))
  {
    hide Messaged, Enqueued;
    if c.run in s.runs {
      var row := s.runs[c.run];
      var put := s.(tools := s.tools[c := Tool(row.tenant, row.session, false, false, None, 1, 1)]);
      EnqueuedShape(put, OfTool(c));
      MessagedShape(Enqueued(put, OfTool(c)), c.run, m, "tool", "", Some(c.call), false);
      if BeginTool(s, c, m).0.Ok? {
        assert c in put.tools;
      }
    }
  }

  /** A tool finishes once, whatever became of its run; its message then holds the result or the error. */
  lemma FinishingIsExact(s: Store, c: Call, o: Outcome, anchor: Option<Id>)
    ensures var (r, t) := FinishTool(s, c, o, anchor);
      var locked := c.run in s.runs && Locked(s, s.runs[c.run].session);
      && (r == Raised(Quarantined) <==> locked) && (r == Raised(Missing) <==> !locked && c !in s.tools)
      && (r == Raised(Conflict) <==> !locked && c in s.tools && s.tools[c].finished)
      && (r.Ok? <==> !locked && c in s.tools && !s.tools[c].finished)
      && (r.Raised? ==> t == s)
      && (r.Ok? ==>
            var tool := s.tools[c];
            && t == s.(tools := t.tools, messages := t.messages, outbox := t.outbox)
            && t.tools == s.tools[c := Tool(tool.tenant, tool.session, true, !(o.Returned? && !o.flagged),
                if o.Returned? then Some(o.text) else None, tool.sourceVersion + 1, tool.aclVersion)]
            && t.messages == if anchor.Some? && anchor.value in s.messages
                             then s.messages[anchor.value := s.messages[anchor.value].(text := o.text, complete := true,
                               sourceVersion := s.messages[anchor.value].sourceVersion + 1)]
                             else s.messages)
  {
  }

  // ------------------------------------------------------------- sessions

  predicate Mine(s: Store, x: Id, tenant: string, agent: string) {
    x in s.sessions && s.sessions[x].tenant == tenant && s.sessions[x].agent == agent
  }

  /** A session is found by its own tenant and agent, and not while it is quarantined. */
  lemma FindingIsExact(s: Store, x: Id, tenant: string, agent: string)
    ensures var r := Found(s, x, tenant, agent);
      && (r.Ok? <==> Mine(s, x, tenant, agent) && !Locked(s, x)) && (r.Ok? ==> r.value == s.sessions[x])
      && (r == Raised(Missing) <==> !Mine(s, x, tenant, agent))
      && (r == Raised(Quarantined) <==> Mine(s, x, tenant, agent) && Locked(s, x))
  {
  }

  /** An unused identifier below a session one can find, or below none. */
  lemma CreationIsExact(s: Store, x: Id, tenant: string, agent: string, title: string, parent: Option<Id>)
    ensures var (r, t) := CreateSession(s, x, tenant, agent, title, parent);
      var placed := parent.Some? ==> Mine(s, parent.value, tenant, agent) && !Locked(s, parent.value);
      && (r == Raised(Conflict) <==> x in s.sessions) && (r == Raised(Missing) <==> x !in s.sessions && !placed)
      && (r.Ok? <==> x !in s.sessions && placed)
      && (r.Raised? ==> t == s)
      && (r.Ok? ==>
            && t == s.(sessions := t.sessions, outbox := t.outbox)
            && t.sessions.Keys == s.sessions.Keys + {x}
            && (forall y :: y in s.sessions ==> t.sessions[y] == s.sessions[y])
            && t.sessions[x].(root := None) == Session(tenant, agent, false, true, parent, None, false, title, 1, 1)
            && SessionIntent(t, x) in t.outbox)
  {
    if parent.Some? { FindingIsExact(s, parent.value, tenant, agent); }
    hide Found;
  }

  /** An edit of a found session sets its column, and its title within bounds, and is newer than all before it. */
  lemma EditIsExact(s: Store, x: Id, tenant: string, agent: string, e: Edit)
    ensures var (r, t) := EditSession(s, x, tenant, agent, e);
      var found := Mine(s, x, tenant, agent) && !Locked(s, x);
      var bad := e.Rename? && (e.title == "" || |e.title| > 240);
      && (r.Ok? <==> found && !bad) && (r == Raised(Invalid) <==> found && bad)
      && (r == Raised(Missing) <==> !Mine(s, x, tenant, agent))
      && (r == Raised(Quarantined) <==> Mine(s, x, tenant, agent) && Locked(s, x))
      && (r.Raised? ==> t == s)
      && (r.Ok? ==>
            var row := s.sessions[x];
            && t == s.(sessions := s.sessions[x := t.sessions[x]], outbox := t.outbox)
            && t.sessions[x] == row.(sourceVersion := row.sourceVersion + 1,
                 title := if e.Rename? then e.title else row.title,
                 archived := if e.Rename? then row.archived else e.Archive?)
            && t.outbox == s.outbox + {Intent(row.tenant, OfSession(x), Upsert, row.sourceVersion + 1, row.aclVersion)})
  {
    FindingIsExact(s, x, tenant, agent);
    hide Found;
  }

  /** An archived session is purged when its runs are over and nothing hangs below it. */
  lemma PurgeIsExact(s: Store, x: Id, tenant: string, agent: string)
    ensures var (r, t) := Purge(s, x, tenant, agent);
      var found := Mine(s, x, tenant, agent) && !Locked(s, x);
      var busy := (exists k :: k in s.runs && s.runs[k].session == x && !Terminal(s.runs[k].status))
        || (exists y :: y in s.sessions
                        && (s.sessions[y].parent == Some(x) || (y != x && s.sessions[y].root == Some(x))));
      && (r.Ok? <==> found && s.sessions[x].archived && !busy)
      && (r == Raised(Invalid) <==> found && !s.sessions[x].archived)
      && (r == Raised(Busy) <==> found && s.sessions[x].archived && busy)
      && (r == Raised(Missing) <==> !Mine(s, x, tenant, agent))
      && (r == Raised(Quarantined) <==> Mine(s, x, tenant, agent) && Locked(s, x))
      && (r.Raised? ==> t == s)
  {
    FindingIsExact(s, x, tenant, agent);
    hide Found, Cascaded, DeleteIntents;
  }

  /** A purge takes every row of the session and no other; runs it had delegated lose that parent. */
  lemma PurgeTakesItsRows(s: Store, x: Id, tenant: string, agent: string)
    requires Purge(s, x, tenant, agent).0.Ok?
    ensures var t := Purge(s, x, tenant, agent).1;
      && t.sessions == s.sessions - {x} && t.reserved == s.reserved && s.outbox <= t.outbox
      && (forall r :: r in t.runs <==> r in s.runs && s.runs[r].session != x)
      && (forall r :: r in t.runs ==>
            t.runs[r] == if s.runs[r].parentRun.Some? && s.runs[r].parentRun.value in s.runs
                            && s.runs[s.runs[r].parentRun.value].session == x
                         then s.runs[r].(parentRun := None) else s.runs[r])
      && (forall m :: m in t.messages <==> m in s.messages && s.messages[m].session != x)
      && (forall m :: m in t.messages ==> t.messages[m] == s.messages[m])
      && (forall c :: c in t.tools <==> c in s.tools && s.tools[c].session != x)
      && (forall c :: c in t.tools ==> t.tools[c] == s.tools[c])
  {
    hide Removable, RootReferenced, DeleteIntents;
  }

  /** It tells the index to forget the session and each of its messages, one version on, and nothing else. */
  lemma PurgeTellsExactly(s: Store, x: Id, tenant: string, agent: string, i: Intent)
    requires Purge(s, x, tenant, agent).0.Ok?
    ensures x in s.sessions
    ensures var row := s.sessions[x];
      i in Purge(s, x, tenant, agent).1.outbox
      <==> || i in s.outbox
           || i == Intent(row.tenant, OfSession(x), Delete, row.sourceVersion + 1, row.aclVersion)
           || exists m :: m in s.messages && s.messages[m].session == x
                          && i == Intent(row.tenant, OfMessage(m), Delete, s.messages[m].sourceVersion + 1,
                               row.aclVersion)
  {
    hide Removable, RootReferenced, Cascaded;
  }

  // --------------------------------------------------------------- intents

  /** An intent names the row at its current versions; a message has the access version of its session. */
  lemma EnqueuingIsExact(s: Store, source: Source)
    ensures var t := Enqueued(s, source);
      t == s.(outbox := s.outbox + match source
        case OfSession(x) =>
          if x in s.sessions
          then {Intent(s.sessions[x].tenant, source, Upsert, s.sessions[x].sourceVersion, s.sessions[x].aclVersion)}
          else {}
        case OfMessage(m) =>
          if m in s.messages && s.messages[m].session in s.sessions
          then {Intent(s.messages[m].tenant, source, Upsert, s.messages[m].sourceVersion,
            s.sessions[s.messages[m].session].aclVersion)}
          else {}
        case OfTool(c) =>
          if c in s.tools
          then {Intent(s.tools[c].tenant, source, Upsert, s.tools[c].sourceVersion, s.tools[c].aclVersion)}
          else {})
  {
    assert s.outbox + {} == s.outbox;
  }

  /** The intent of a tool of the run one version on. */
  predicate RenewsTool(s: Store, run: Id, i: Intent) {
    exists c :: c in s.tools && c.run == run && i == Intent(s.tools[c].tenant, OfTool(c), Upsert,
      s.tools[c].sourceVersion + 1, s.tools[c].aclVersion)
  }

  /** A message makes every tool of its run newer by one, with an intent, and no other. */
  lemma RefreshingIsExact(s: Store, run: Id, i: Intent)
    ensures var t := ToolsRefreshed(s, run);
      && t == s.(tools := t.tools, outbox := t.outbox) && t.tools.Keys == s.tools.Keys
      && (forall c :: c in s.tools ==>
            t.tools[c]
            == if c.run == run then s.tools[c].(sourceVersion := s.tools[c].sourceVersion + 1) else s.tools[c])
      && (i in t.outbox <==> i in s.outbox || RenewsTool(s, run, i))
  {
  }

  /** A message touches its session and enqueues itself, its session and the tools of its run, and nothing else. */
  lemma TellingIsExact(s: Store, run: Id, m: Id, role: string, text: string, toolCall: Option<string>, complete: bool,
      i: Intent)
    requires run in s.runs && s.runs[run].session in s.sessions && m !in s.messages
    ensures var t := Messaged(s, run, m, role, text, toolCall, complete);
      var x := s.runs[run].session; var row := s.sessions[x];
      && t.sessions == s.sessions[x := row.(sourceVersion := row.sourceVersion + 1)]
      && (i in t.outbox <==>
          || i in s.outbox
          || i == Intent(s.runs[run].tenant, OfMessage(m), Upsert, 1, row.aclVersion)
          || i == Intent(row.tenant, OfSession(x), Upsert, row.sourceVersion + 1, row.aclVersion)
          || RenewsTool(s, run, i))
  {
    var x := s.runs[run].session;
    var row := Message(s.runs[run].tenant, x, Some(run), role, text, toolCall, complete, 1);
    var added := Touched(s.(messages := s.messages[m := row]), x);
    EnqueuingIsExact(added, OfMessage(m));
    EnqueuingIsExact(Enqueued(added, OfMessage(m)), OfSession(x));
    RefreshingIsExact(Enqueued(Enqueued(added, OfMessage(m)), OfSession(x)), run, i);
    hide Enqueued, ToolsRefreshed;
  }

  /** At startup every row of the run writer gets an upsert at its versions, and nothing else does. */
  lemma BackfillIsExact(s: Store, i: Intent)
    ensures Backfilled(s) == s.(outbox := Backfilled(s).outbox)
    ensures i in Backfilled(s).outbox
            <==> || i in s.outbox
                 || (exists x :: x in s.sessions && s.sessions[x].contract
                       && i == Intent(s.sessions[x].tenant, OfSession(x), Upsert, s.sessions[x].sourceVersion,
                            s.sessions[x].aclVersion))
                 || (exists m :: m in s.messages && s.messages[m].session in s.sessions
                       && s.sessions[s.messages[m].session].contract
                       && i == Intent(s.messages[m].tenant, OfMessage(m), Upsert, s.messages[m].sourceVersion,
                            s.sessions[s.messages[m].session].aclVersion))
                 || (exists c :: c in s.tools && c.run in s.runs && s.runs[c.run].contract
                       && i == Intent(s.tools[c].tenant, OfTool(c), Upsert, s.tools[c].sourceVersion,
                            s.tools[c].aclVersion))
  {
  }

  // ------------------------------------------------- nothing changes silently

  /** Any row that the index shows and that changed has a newer version, and an intent at that version. */
  ghost predicate Versioned(s: Store, t: Store) {
    && (forall x :: x in s.sessions && x in t.sessions ==>
          && t.sessions[x].sourceVersion >= s.sessions[x].sourceVersion
          && ((t.sessions[x].title, t.sessions[x].archived) != (s.sessions[x].title, s.sessions[x].archived) ==>
                t.sessions[x].sourceVersion > s.sessions[x].sourceVersion && SessionIntent(t, x) in t.outbox))
    && (forall m :: m in s.messages && m in t.messages && t.messages[m] != s.messages[m] ==>
          && t.messages[m].sourceVersion > s.messages[m].sourceVersion
          && (t.messages[m].session in t.sessions ==> MessageIntent(t, m) in t.outbox))
    && (forall c :: c in s.tools && c in t.tools && t.tools[c] != s.tools[c] ==>
          t.tools[c].sourceVersion > s.tools[c].sourceVersion && ToolIntent(t, c) in t.outbox)
    && s.outbox <= t.outbox
  }

  lemma VersionedIsReflexive(s: Store, t: Store)
    requires t.sessions == s.sessions && t.messages == s.messages && t.tools == s.tools && s.outbox <= t.outbox
    ensures Versioned(s, t)
  {
  }

  lemma RefreshedIsVersioned(s: Store, run: Id)
    ensures Versioned(s, ToolsRefreshed(s, run))
    ensures forall c :: c in s.tools && c.run == run ==>
              ToolIntent(ToolsRefreshed(s, run), c) in ToolsRefreshed(s, run).outbox
  {
  }

  lemma VersionedIsTransitive(s: Store, t: Store, u: Store)
    requires Versioned(s, t) && Versioned(t, u)
    requires s.sessions.Keys <= t.sessions.Keys && s.messages.Keys <= t.messages.Keys && s.tools.Keys <= t.tools.Keys
    requires u.sessions.Keys == t.sessions.Keys
    requires forall x :: x in t.sessions ==> u.sessions[x].aclVersion == t.sessions[x].aclVersion
    requires forall x :: x in t.sessions ==> u.sessions[x].tenant == t.sessions[x].tenant
    requires forall x :: x in t.sessions && u.sessions[x].sourceVersion != t.sessions[x].sourceVersion ==>
               SessionIntent(u, x) in u.outbox
    ensures Versioned(s, u)
  {
    forall m | m in s.messages && m in u.messages && u.messages[m] != s.messages[m]
      ensures u.messages[m].sourceVersion > s.messages[m].sourceVersion
      ensures u.messages[m].session in u.sessions ==> MessageIntent(u, m) in u.outbox
    {
      if u.messages[m] == t.messages[m] {
        assert u.messages[m].session in u.sessions ==> MessageIntent(u, m) == MessageIntent(t, m);
      }
    }
    forall c | c in s.tools && c in u.tools && u.tools[c] != s.tools[c]
      ensures u.tools[c].sourceVersion > s.tools[c].sourceVersion && ToolIntent(u, c) in u.outbox
    {
      if u.tools[c] == t.tools[c] {
        assert ToolIntent(u, c) == ToolIntent(t, c);
      }
    }
  }

  /** The session is touched, the message is new, and both have their intents; the run's tools come last. */
  lemma ToldShape(s: Store, x: Id, m: Id, row: Message)
    requires row.session == x
    ensures var t := Enqueued(Enqueued(Touched(s.(messages := s.messages[m := row]), x), OfMessage(m)), OfSession(x));
      && t == s.(messages := s.messages[m := row], sessions := t.sessions, outbox := t.outbox) && s.outbox <= t.outbox
      && (x !in s.sessions ==> t.sessions == s.sessions)
      && (x in s.sessions ==>
            && t.sessions == s.sessions[x := s.sessions[x].(sourceVersion := s.sessions[x].sourceVersion + 1)]
            && SessionIntent(t, x) in t.outbox && MessageIntent(t, m) in t.outbox)
  {
  }

  lemma ToldIsVersioned(s: Store, x: Id, m: Id, row: Message)
    requires m !in s.messages && row.session == x
    ensures var t := Enqueued(Enqueued(Touched(s.(messages := s.messages[m := row]), x), OfMessage(m)), OfSession(x));
      Versioned(s, t)
  {
    ToldShape(s, x, m, row);
    hide Touched, Enqueued;
  }

  lemma MessagedIsVersioned(s: Store, run: Id, m: Id, role: string, text: string, toolCall: Option<string>,
      complete: bool)
    requires run in s.runs && m !in s.messages
    ensures var t := Messaged(s, run, m, role, text, toolCall, complete);
      && Versioned(s, t)
      && (s.runs[run].session in t.sessions ==>
            SessionIntent(t, s.runs[run].session) in t.outbox && m in t.messages
            && t.messages[m].session == s.runs[run].session && MessageIntent(t, m) in t.outbox)
  {
    var x := s.runs[run].session;
    var row := Message(s.runs[run].tenant, x, Some(run), role, text, toolCall, complete, 1);
    var told := Enqueued(Enqueued(Touched(s.(messages := s.messages[m := row]), x), OfMessage(m)), OfSession(x));
    ToldShape(s, x, m, row);
    ToldIsVersioned(s, x, m, row);
    RefreshedIsVersioned(told, run);
    RefreshedShape(told, run);
    hide Enqueued, Touched, ToolsRefreshed, Versioned;
    VersionedIsTransitive(s, told, ToolsRefreshed(told, run));
  }

  lemma BegunIsVersioned(s: Store, q: Request, c: Context, m: Id)
    requires Accept(s, q, c, m).0.Ok? && m !in s.messages
    ensures Versioned(s, Accept(s, q, c, m).1)
  {
    AcceptanceIsExact(s, q, c, m);
    if Taken(s, q) {
      VersionedIsReflexive(s, s);
    } else {
      ClashesAreTaken(s, q);
      var begun := s.(sessions := s.sessions[q.session := AcceptedSession(s, q, c)],
        runs := s.runs[q.run := AcceptedRow(s, q, c)]);
      MessagedIsVersioned(begun, q.run, m, "user", q.input, None, true);
      AdoptedIsVersioned(s, begun, Messaged(begun, q.run, m, "user", q.input, None, true), q.session);
    }
    hide Messaged, Versioned, Clashes;
  }

  /** Only the ownership of a known session may differ before. */
  lemma AdoptedIsVersioned(s: Store, t: Store, u: Store, x: Id)
    requires Versioned(t, u) && t.messages == s.messages && t.tools == s.tools && t.outbox == s.outbox
    requires s.sessions.Keys <= t.sessions.Keys && forall y :: y in s.sessions ==>
               t.sessions[y].(contract := false) == s.sessions[y].(contract := false)
    ensures Versioned(s, u)
  {
  }

  lemma TransitionIsVersioned(s: Store, run: Id, status: Status, output: Option<string>, m: Id)
    requires m !in s.messages
    ensures Versioned(s, Transition(s, run, status, output, m).1)
  {
    TransitionIsExact(s, run, status, output, m);
    var t := Transition(s, run, status, output, m).1;
    if run in s.runs && status.Success? && output.Some? {
      var moved :=
        s.(runs := s.runs[run := s.runs[run].(status := status, output := output, finished := Terminal(status))]);
      MessagedIsVersioned(moved, run, m, "assistant", output.value, None, true);
      AdoptedIsVersioned(s, moved, Messaged(moved, run, m, "assistant", output.value, None, true), "");
    }
    VersionedIsReflexive(s, s);
    VersionedIsReflexive(s, s.(runs := t.runs));
    hide Messaged, Versioned;
  }

  lemma BeginningIsVersioned(s: Store, c: Call, m: Id)
    requires m !in s.messages
    ensures Versioned(s, BeginTool(s, c, m).1)
  {
    BeginningIsExact(s, c, m);
    VersionedIsReflexive(s, s);
    if BeginTool(s, c, m).0.Ok? {
      var row := s.runs[c.run];
      var put := s.(tools := s.tools[c := Tool(row.tenant, row.session, false, false, None, 1, 1)]);
      var begun := Enqueued(put, OfTool(c));
      EnqueuedShape(put, OfTool(c));
      MessagedIsVersioned(begun, c.run, m, "tool", "", Some(c.call), false);
      BegunToolIsVersioned(s, begun, Messaged(begun, c.run, m, "tool", "", Some(c.call), false), c);
    }
    hide Messaged, Versioned, Enqueued;
  }

  lemma BegunToolIsVersioned(s: Store, t: Store, u: Store, c: Call)
    requires Versioned(t, u) && t.messages == s.messages && t.sessions == s.sessions && s.outbox <= t.outbox
    requires c !in s.tools && c in t.tools && t.tools == s.tools[c := t.tools[c]]
    ensures Versioned(s, u)
  {
  }

  /** Whatever a transaction does, an indexed row never changes without a newer version and an intent for it. */
  lemma NothingChangesSilently(s: Store, op: Op)
    requires Sound(s, op)
    ensures Versioned(s, Step(s, op))
  {
    match op
    case DoAccept(q, c, m) =>
      AcceptanceIsExact(s, q, c, m);
      if Accept(s, q, c, m).0.Ok? { BegunIsVersioned(s, q, c, m); }
      VersionedIsReflexive(s, s);
    case DoTransition(run, status, output, m) => TransitionIsVersioned(s, run, status, output, m);
    case DoRequestCancel(run) => RequestCancelIsExact(s, run);
    case DoReserve(run, tenant, session) => ReservationIsExact(s, run, tenant, session);
    case DoBegin(call, m) => BeginningIsVersioned(s, call, m);
    case DoFinish(call, o, anchor) => FinishedIsVersioned(s, call, o, anchor);
    case DoEdit(x, tenant, agent, e) => EditIsExact(s, x, tenant, agent, e);
    case DoCreate(x, tenant, agent, title, parent) => CreatedIsVersioned(s, x, tenant, agent, title, parent);
    case DoPurge(x, tenant, agent) => PurgedIsVersioned(s, x, tenant, agent);
    case DoBackfill => VersionedIsReflexive(s, Backfilled(s));
    hide Accept, Transition, RequestCancel, ReserveCancel, BeginTool, FinishTool, EditSession, CreateSession, Purge;
  }

  lemma FinishingIsTold(s: Store, c: Call, o: Outcome, anchor: Option<Id>)
    requires FinishTool(s, c, o, anchor).0.Ok?
    ensures var t := FinishTool(s, c, o, anchor).1;
      && s.outbox <= t.outbox && c in t.tools && ToolIntent(t, c) in t.outbox
      && (anchor.Some? && anchor.value in t.messages && t.messages[anchor.value].session in t.sessions ==>
            MessageIntent(t, anchor.value) in t.outbox)
  {
  }

  lemma FinishedIsVersioned(s: Store, c: Call, o: Outcome, anchor: Option<Id>)
    ensures Versioned(s, FinishTool(s, c, o, anchor).1)
  {
    FinishingIsExact(s, c, o, anchor);
    if FinishTool(s, c, o, anchor).0.Ok? {
      FinishingIsTold(s, c, o, anchor);
    }
    hide FinishTool;
  }

  lemma CreatedIsVersioned(s: Store, x: Id, tenant: string, agent: string, title: string, parent: Option<Id>)
    ensures Versioned(s, CreateSession(s, x, tenant, agent, title, parent).1)
  {
    hide Found;
  }

  lemma PurgedIsVersioned(s: Store, x: Id, tenant: string, agent: string)
    ensures Versioned(s, Purge(s, x, tenant, agent).1)
  {
    if Purge(s, x, tenant, agent).0.Ok? {
      PurgeTakesItsRows(s, x, tenant, agent);
    } else {
      PurgeIsExact(s, x, tenant, agent);
    }
    hide Purge;
  }
}
