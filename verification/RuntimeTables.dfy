/** Sessions, runs, messages, tool invocations and the search outbox, and the transactions on them. */
module RuntimeTables {
  import opened Prelude

  type Id = string

  datatype Status =
    | Pending | Queued | Received | Running
    | Success | Failed | Cancelled | Rejected | Interrupted | Skipped | TimedOut

  predicate Terminal(st: Status) {
    st.Success? || st.Failed? || st.Cancelled? || st.Rejected? || st.Interrupted? || st.Skipped? || st.TimedOut?
  }

  /** `contract` marks what the run writer owns; other rows are projections of older history. */
  datatype Session = Session(
    tenant: string, agent: string, quarantined: bool, contract: bool, parent: Option<Id>, root: Option<Id>,
    archived: bool, title: string, sourceVersion: nat, aclVersion: nat)

  datatype RunRow = RunRow(
    tenant: string, session: Id, key: string, digest: string, status: Status, output: Option<string>,
    finished: bool, cancelRequested: bool, parentRun: Option<Id>, contract: bool)

  datatype Message = Message(
    tenant: string, session: Id, run: Option<Id>, role: string, text: string, toolCall: Option<string>,
    complete: bool, sourceVersion: nat)

  /** A tool invocation is identified by its run and call. */
  datatype Call = Call(run: Id, call: string)

  datatype Tool = Tool(
    tenant: string, session: Id, finished: bool, failed: bool, result: Option<string>, sourceVersion: nat,
      aclVersion: nat)

  datatype Source = OfSession(id: Id) | OfMessage(id: Id) | OfTool(call: Call)

  datatype Operation = Upsert | Delete

  datatype Intent = Intent(tenant: string, source: Source, operation: Operation, sourceVersion: nat, aclVersion: nat)

  datatype Reservation = Reservation(tenant: string, session: Id)

  datatype Store = Store(
    sessions: map<Id, Session>, runs: map<Id, RunRow>, messages: map<Id, Message>, tools: map<Call, Tool>,
    outbox: set<Intent>, reserved: map<Id, Reservation>)

  const Empty := Store(map[], map[], map[], map[], {}, map[])

  datatype Error = Quarantined | Conflict | Denied | Missing | Invalid | Busy

  /** A raised error rolls its transaction back. */
  datatype Result<+T> = Ok(value: T) | Raised(error: Error)

  predicate RunLinks(s: Store) {
    forall r :: r in s.runs ==>
      s.runs[r].session in s.sessions && s.sessions[s.runs[r].session].tenant == s.runs[r].tenant
  }

  predicate MessageLinks(s: Store) {
    && (forall m :: m in s.messages ==> s.messages[m].session in s.sessions)
    && (forall m :: m in s.messages && s.messages[m].run.Some? ==>
          s.messages[m].run.value in s.runs && s.runs[s.messages[m].run.value].session == s.messages[m].session)
  }

  predicate ToolLinks(s: Store) {
    forall c :: c in s.tools ==> c.run in s.runs && s.tools[c].session == s.runs[c.run].session
  }

  predicate ParentLinks(s: Store) {
    && (forall x :: x in s.sessions && s.sessions[x].parent.Some? ==> s.sessions[x].parent.value in s.sessions)
    && (forall x :: x in s.sessions && s.sessions[x].root.Some? ==> s.sessions[x].root.value in s.sessions)
    && (forall r :: r in s.runs && s.runs[r].parentRun.Some? ==> s.runs[r].parentRun.value in s.runs)
  }

  /** The rows a store always has around a row, as its foreign keys demand. */
  predicate Linked(s: Store) {
    RunLinks(s) && MessageLinks(s) && ToolLinks(s) && ParentLinks(s)
  }

  predicate RunQuarantined(s: Store, run: Id) {
    run in s.runs && s.runs[run].session in s.sessions && s.sessions[s.runs[run].session].quarantined
  }

  predicate SessionQuarantined(s: Store, session: Id) {
    session in s.sessions && s.sessions[session].quarantined
  }

  // --------------------------------------------------------------- outbox

  function SessionIntent(s: Store, x: Id): Intent
    requires x in s.sessions
  {
    Intent(s.sessions[x].tenant, OfSession(x), Upsert, s.sessions[x].sourceVersion, s.sessions[x].aclVersion)
  }

  function MessageIntent(s: Store, m: Id): Intent
    requires m in s.messages && s.messages[m].session in s.sessions
  {
    Intent(s.messages[m].tenant, OfMessage(m), Upsert, s.messages[m].sourceVersion,
      s.sessions[s.messages[m].session].aclVersion)
  }

  function ToolIntent(s: Store, c: Call): Intent
    requires c in s.tools
  {
    Intent(s.tools[c].tenant, OfTool(c), Upsert, s.tools[c].sourceVersion, s.tools[c].aclVersion)
  }

  /** `enqueue_source`: a repeated intent is ignored. */
  function Enqueued(s: Store, source: Source): Store {
    match source
    case OfSession(x) => if x in s.sessions then s.(outbox := s.outbox + {SessionIntent(s, x)}) else s
    case OfMessage(m) =>
      if m in s.messages && s.messages[m].session in s.sessions then s.(outbox := s.outbox + {MessageIntent(s, m)})
      else s
    case OfTool(c) => if c in s.tools then s.(outbox := s.outbox + {ToolIntent(s, c)}) else s
  }

  // ------------------------------------------------------------- messages

  function Touched(s: Store, x: Id): Store {
    if x !in s.sessions then s
    else
      var row := s.sessions[x];
      s.(sessions := s.sessions[x := row.(sourceVersion := row.sourceVersion + 1)])
  }

  /** The tool references of a run are refreshed together. */
  function ToolsRefreshed(s: Store, run: Id): Store {
    var tools := map c | c in s.tools :: if c.run == run then s.tools[c].(sourceVersion := s.tools[c].sourceVersion + 1)
      else s.tools[c];
    s.(tools := tools,
       outbox := s.outbox + set c | c in tools && c.run == run :: Intent(tools[c].tenant, OfTool(c), Upsert,
         tools[c].sourceVersion, tools[c].aclVersion))
  }

  /** `_message`: append, and refresh the session and the run's tools, each with its intent. */
  function Messaged(s: Store, run: Id, m: Id, role: string, text: string, toolCall: Option<string>,
      complete: bool): Store
    requires run in s.runs
  {
    var x := s.runs[run].session;
    var added :=
      s.(messages := s.messages[m := Message(s.runs[run].tenant, x, Some(run), role, text, toolCall, complete, 1)]);
    ToolsRefreshed(Enqueued(Enqueued(Touched(added, x), OfMessage(m)), OfSession(x)), run)
  }

  lemma EnqueuedShape(s: Store, source: Source)
    ensures var t := Enqueued(s, source);
      t == s.(outbox := t.outbox) && s.outbox <= t.outbox && forall i :: i in t.outbox && i !in s.outbox ==>
        i.source == source && i.operation.Upsert?
  {
  }

  lemma RefreshedShape(s: Store, run: Id)
    ensures var t := ToolsRefreshed(s, run);
      && t == s.(tools := t.tools, outbox := t.outbox)
      && t.tools.Keys == s.tools.Keys
      && (forall c :: c in s.tools ==> t.tools[c].(sourceVersion := 0) == s.tools[c].(sourceVersion := 0))
      && (forall i :: i in t.outbox && i !in s.outbox ==> i.source.OfTool? && i.operation.Upsert?)
  {
  }

  /** All that a message changes. */
  lemma MessagedShape(s: Store, run: Id, m: Id, role: string, text: string, toolCall: Option<string>, complete: bool)
    requires run in s.runs
    ensures var t := Messaged(s, run, m, role, text, toolCall, complete);
      var x := s.runs[run].session;
      && t.runs == s.runs && t.reserved == s.reserved
      && t.messages == s.messages[m := Message(s.runs[run].tenant, x, Some(run), role, text, toolCall, complete, 1)]
      && t.sessions == Touched(s, x).sessions
      && t.tools.Keys == s.tools.Keys
      && (forall c :: c in s.tools ==> t.tools[c].(sourceVersion := 0) == s.tools[c].(sourceVersion := 0))
      && (forall i :: i in t.outbox && i !in s.outbox ==>
            i.operation.Upsert? && (i.source == OfMessage(m) || i.source == OfSession(x) || i.source.OfTool?))
  {
    hide ToolsRefreshed, Enqueued;
    var x := s.runs[run].session;
    var row := Message(s.runs[run].tenant, x, Some(run), role, text, toolCall, complete, 1);
    var added := Touched(s.(messages := s.messages[m := row]), x);
    var told := Enqueued(added, OfMessage(m));
    EnqueuedShape(added, OfMessage(m));
    EnqueuedShape(told, OfSession(x));
    RefreshedShape(Enqueued(told, OfSession(x)), run);
  }

  // ----------------------------------------------------------------- runs

  datatype Request = Request(run: Id, session: Id, key: string, digest: string, input: string)

  datatype Context = Context(tenant: string, agent: string, parentRun: Option<Id>)

  /** `fresh`: the run was created now and is to be executed. */
  datatype Accepted = Accepted(row: RunRow, created: bool)

  function Clashes(s: Store, q: Request): set<Id> {
    set r | r in s.runs && (r == q.run || (s.runs[r].session == q.session && s.runs[r].key == q.key))
  }

  /** The session a new run is accepted into: adopted, or created under its parent run's session. */
  function AcceptedSession(s: Store, q: Request, c: Context): Session {
    if q.session in s.sessions then s.sessions[q.session].(contract := true)
    else
      var parent :=
        if c.parentRun.Some? && c.parentRun.value in s.runs then Some(s.runs[c.parentRun.value].session) else None;
      var root :=
        if parent.Some? && parent.value in s.sessions
            && s.sessions[parent.value].root.Some? then s.sessions[parent.value].root else parent;
      Session(c.tenant, c.agent, false, true, parent, root, false, "", 1, 1)
  }

  function AcceptedRow(s: Store, q: Request, c: Context): RunRow {
    var reserved := q.run in s.reserved;
    RunRow(c.tenant, q.session, q.key, q.digest, if reserved then Cancelled else Queued, None, reserved, reserved,
      c.parentRun, true)
  }

  predicate ParentAllowed(s: Store, q: Request, c: Context) {
    c.parentRun.Some? ==>
      && c.parentRun.value in s.runs && s.runs[c.parentRun.value].tenant == c.tenant
      && s.runs[c.parentRun.value].session != q.session
      && (q.session in s.sessions ==> s.sessions[q.session].parent == Some(s.runs[c.parentRun.value].session))
  }

  function Accept(s: Store, q: Request, c: Context, m: Id): (Result<Accepted>, Store) {
    if SessionQuarantined(s, q.session) then (Raised(Quarantined), s)
    else if Clashes(s, q) != {} then
      if Clashes(s, q) == {q.run} && s.runs[q.run].digest == q.digest
      then (Ok(Accepted(s.runs[q.run], false)), s) else (Raised(Conflict), s)
    else if q.run in s.reserved && s.reserved[q.run] != Reservation(c.tenant, q.session) then (Raised(Conflict), s)
    else if q.session in s.sessions && s.sessions[q.session].tenant != c.tenant then (Raised(Denied), s)
    else if !ParentAllowed(s, q, c) then (Raised(Invalid), s)
    else
      var row := AcceptedRow(s, q, c);
      var begun := s.(sessions := s.sessions[q.session := AcceptedSession(s, q, c)], runs := s.runs[q.run := row]);
      (Ok(Accepted(row, q.run !in s.reserved)), Messaged(begun, q.run, m, "user", q.input, None, true))
  }

  function Transition(s: Store, run: Id, status: Status, output: Option<string>, m: Id): (Result<RunRow>, Store) {
    if RunQuarantined(s, run) then (Raised(Quarantined), s)
    else if run !in s.runs then (Raised(Missing), s)
    else
      var row := s.runs[run];
      if Terminal(row.status) then (Ok(row), s)
      else if !status.Running? && !Terminal(status) then (Raised(Invalid), s)
      else if status.Running? && !row.status.Queued? then (Raised(Invalid), s)
      else
        var next := row.(status := status, output := output, finished := Terminal(status));
        var moved := s.(runs := s.runs[run := next]);
        (Ok(next),
         if status.Success? && output.Some? then Messaged(moved, run, m, "assistant", output.value, None, true)
         else moved)
  }

  function RequestCancel(s: Store, run: Id): (Result<RunRow>, Store) {
    if RunQuarantined(s, run) then (Raised(Quarantined), s)
    else if run !in s.runs then (Raised(Missing), s)
    else
      var row := s.runs[run];
      if Terminal(row.status) || row.cancelRequested then (Ok(row), s)
      else
        var next := row.(cancelRequested := true);
        (Ok(next), s.(runs := s.runs[run := next]))
  }

  /** The status a caller sees for a run that may not exist yet. */
  function ReserveCancel(s: Store, run: Id, tenant: string, session: Id): (Result<Status>, Store) {
    if SessionQuarantined(s, session) || RunQuarantined(s, run) then (Raised(Quarantined), s)
    else if run in s.runs then
      if s.runs[run].tenant != tenant || s.runs[run].session != session then (Raised(Denied), s)
      else (Ok(s.runs[run].status), s)
    else if run in s.reserved then
      if s.reserved[run] != Reservation(tenant, session) then (Raised(Denied), s) else (Ok(Cancelled), s)
    else (Ok(Cancelled), s.(reserved := s.reserved[run := Reservation(tenant, session)]))
  }

  // ---------------------------------------------------------------- tools

  function BeginTool(s: Store, c: Call, m: Id): (Result<()>, Store) {
    if RunQuarantined(s, c.run) then (Raised(Quarantined), s)
    else if c.run !in s.runs || !s.runs[c.run].status.Running? then (Raised(Busy), s)
    else if c in s.tools then (Raised(Conflict), s)
    else
      var row := s.runs[c.run];
      var begun := s.(tools := s.tools[c := Tool(row.tenant, row.session, false, false, None, 1, 1)]);
      (Ok(()), Messaged(Enqueued(begun, OfTool(c)), c.run, m, "tool", "", Some(c.call), false))
  }

  predicate IsAnchor(s: Store, c: Call, m: Id) {
    m in s.messages && s.messages[m].run == Some(c.run) && s.messages[m].toolCall == Some(c.call)
      && s.messages[m].role == "tool"
  }

  function Anchored(s: Store, anchor: Option<Id>, text: string): Store {
    if anchor.Some? && anchor.value in s.messages then
      var row := s.messages[anchor.value];
      Enqueued(s.(messages := s.messages[anchor.value := row.(text := text, complete := true,
        sourceVersion := row.sourceVersion + 1)]),
               OfMessage(anchor.value))
    else s
  }

  /** A result, possibly flagged as an error, or a failure to get one. */
  datatype Outcome = Returned(text: string, flagged: bool) | Errored(text: string)

  /** `anchor` is the message the lookup finds, if any. */
  function FinishTool(s: Store, c: Call, o: Outcome, anchor: Option<Id>): (Result<()>, Store) {
    if RunQuarantined(s, c.run) then (Raised(Quarantined), s)
    else if c !in s.tools then (Raised(Missing), s)
    else if s.tools[c].finished then (Raised(Conflict), s)
    else
      var tool := s.tools[c];
      var ended := s.(tools := s.tools[c := tool.(finished := true, failed := o.Errored? || o.flagged,
                                                   result := if o.Errored? then None else Some(o.text),
                                                   sourceVersion := tool.sourceVersion + 1)]);
      (Ok(()), Anchored(Enqueued(ended, OfTool(c)), anchor, o.text))
  }

  // ------------------------------------------------------------- sessions

  predicate Local(s: Store, x: Id, tenant: string, agent: string) {
    x in s.sessions && s.sessions[x].tenant == tenant && s.sessions[x].agent == agent
  }

  function Found(s: Store, x: Id, tenant: string, agent: string): Result<Session> {
    if !Local(s, x, tenant, agent) then Raised(Missing)
    else if s.sessions[x].quarantined then Raised(Quarantined)
    else Ok(s.sessions[x])
  }

  function CreateSession(s: Store, x: Id, tenant: string, agent: string, title: string,
      parent: Option<Id>): (Result<()>, Store) {
    if x in s.sessions then (Raised(Conflict), s)
    else if parent.Some? && Found(s, parent.value, tenant, agent).Raised? then (Raised(Missing), s)
    else
      var root := if parent.Some? && s.sessions[parent.value].root.Some? then s.sessions[parent.value].root else parent;
      (Ok(()),
        Enqueued(s.(sessions := s.sessions[x := Session(tenant, agent, false, true, parent, root, false, title, 1, 1)]),
          OfSession(x)))
  }

  /** Rename, archive and restore differ in the column they set. */
  datatype Edit = Rename(title: string) | Archive | Restore

  function Edited(row: Session, e: Edit): Session {
    match e
    case Rename(title) => row.(title := title)
    case Archive => row.(archived := true)
    case Restore => row.(archived := false)
  }

  /** A title, already stripped, has 1 to 240 characters. */
  predicate TitleAllowed(e: Edit) {
    e.Rename? ==> 1 <= |e.title| <= 240
  }

  function EditSession(s: Store, x: Id, tenant: string, agent: string, e: Edit): (Result<()>, Store) {
    match Found(s, x, tenant, agent)
    case Raised(error) => (Raised(error), s)
    case Ok(row) =>
      if !TitleAllowed(e) then (Raised(Invalid), s)
      else (Ok(()), Enqueued(Touched(s.(sessions := s.sessions[x := Edited(row, e)]), x), OfSession(x)))
  }

  predicate Removable(s: Store, x: Id) {
    && (forall r :: r in s.runs && s.runs[r].session == x ==> Terminal(s.runs[r].status))
    && (forall y :: y in s.sessions ==> s.sessions[y].parent != Some(x))
  }

  /** The foreign key on `root_session_id` restricts the delete. */
  predicate RootReferenced(s: Store, x: Id) {
    exists y :: y in s.sessions && y != x && s.sessions[y].root == Some(x)
  }

  function DeleteIntents(s: Store, x: Id): set<Intent>
    requires x in s.sessions
  {
    var row := s.sessions[x];
    (set m | m in s.messages && s.messages[m].session == x ::
       Intent(row.tenant, OfMessage(m), Delete, s.messages[m].sourceVersion + 1, row.aclVersion))
    + {Intent(row.tenant, OfSession(x), Delete, row.sourceVersion + 1, row.aclVersion)}
  }

  /** Runs, messages and tools go with their session; a delegated parent that goes is forgotten. */
  function Cascaded(s: Store, x: Id): Store {
    var gone := set r | r in s.runs && s.runs[r].session == x;
    Store(
      s.sessions - {x},
      map r | r in s.runs && r !in gone ::
        if s.runs[r].parentRun.Some? && s.runs[r].parentRun.value in gone then s.runs[r].(parentRun := None)
        else s.runs[r],
      map m | m in s.messages && s.messages[m].session != x :: s.messages[m],
      map c | c in s.tools && s.tools[c].session != x :: s.tools[c],
      s.outbox, s.reserved)
  }

  function Purge(s: Store, x: Id, tenant: string, agent: string): (Result<()>, Store) {
    match Found(s, x, tenant, agent)
    case Raised(error) => (Raised(error), s)
    case Ok(row) =>
      if !row.archived then (Raised(Invalid), s)
      else if !Removable(s, x) then (Raised(Busy), s)
      else if RootReferenced(s, x) then (Raised(Busy), s)
      else (Ok(()), Cascaded(s, x).(outbox := s.outbox + DeleteIntents(s, x)))
  }

  // -------------------------------------------------------------- startup

  /** `restore_runtime_search_intents`: an upsert for every row the run writer owns. */
  function Backfilled(s: Store): Store {
    s.(outbox := s.outbox
      + (set x | x in s.sessions && s.sessions[x].contract :: SessionIntent(s, x))
      + (set m | m in s.messages && s.messages[m].session in s.sessions
        && s.sessions[s.messages[m].session].contract :: MessageIntent(s, m))
      + (set c | c in s.tools && c.run in s.runs && s.runs[c.run].contract :: ToolIntent(s, c)))
  }

  predicate PendingTool(s: Store, c: Call) {
    c in s.tools && c.run in s.runs && s.runs[c.run].contract && !s.tools[c].finished
  }

  predicate PendingRun(s: Store, r: Id) {
    r in s.runs && s.runs[r].contract && !s.runs[r].finished
  }

  const Lost := "{\"effects\":\"unknown\",\"reason\":\"runtime_restarted\",\"retry_allowed\":false}"

  // ----------------------------------------------------------------- runs of the store

  /** One committed transaction. */
  datatype Op =
    | DoAccept(q: Request, c: Context, m: Id)
    | DoTransition(run: Id, status: Status, output: Option<string>, m: Id)
    | DoRequestCancel(run: Id)
    | DoReserve(run: Id, tenant: string, session: Id)
    | DoBegin(call: Call, m: Id)
    | DoFinish(call: Call, o: Outcome, anchor: Option<Id>)
    | DoCreate(x: Id, tenant: string, agent: string, title: string, parent: Option<Id>)
    | DoEdit(x: Id, tenant: string, agent: string, e: Edit)
    | DoPurge(x: Id, tenant: string, agent: string)
    | DoBackfill

  /** New messages get identifiers that were never used, and a tool's message is found by its call. */
  predicate Sound(s: Store, op: Op) {
    && (op.DoAccept? || op.DoTransition? || op.DoBegin? ==> op.m !in s.messages)
    && (op.DoFinish? && op.anchor.Some? ==> IsAnchor(s, op.call, op.anchor.value))
  }

  function Step(s: Store, op: Op): Store {
    match op
    case DoAccept(q, c, m) => Accept(s, q, c, m).1
    case DoTransition(run, status, output, m) => Transition(s, run, status, output, m).1
    case DoRequestCancel(run) => RequestCancel(s, run).1
    case DoReserve(run, tenant, session) => ReserveCancel(s, run, tenant, session).1
    case DoBegin(call, m) => BeginTool(s, call, m).1
    case DoFinish(call, o, anchor) => FinishTool(s, call, o, anchor).1
    case DoCreate(x, tenant, agent, title, parent) => CreateSession(s, x, tenant, agent, title, parent).1
    case DoEdit(x, tenant, agent, e) => EditSession(s, x, tenant, agent, e).1
    case DoPurge(x, tenant, agent) => Purge(s, x, tenant, agent).1
    case DoBackfill => Backfilled(s)
  }

  predicate Legal(s: Store, ops: seq<Op>)
    decreases |ops|
  {
    ops == [] || (Sound(s, ops[0]) && Legal(Step(s, ops[0]), ops[1..]))
  }

  function Run(s: Store, ops: seq<Op>): Store
    decreases |ops|
  {
    if ops == [] then s else Run(Step(s, ops[0]), ops[1..])
  }
}
