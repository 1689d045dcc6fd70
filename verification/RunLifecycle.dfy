/** The life of a run: what any transaction may do to it. */
module RunAutomaton {
  import opened Prelude
  import opened RuntimeTables

  /** The allowed history of a row: its identity is fixed, a terminal status and its output never change. */
  predicate Advances(a: RunRow, b: RunRow) {
    && b.tenant == a.tenant && b.session == a.session && b.key == a.key && b.digest == a.digest
        && b.contract == a.contract
    && (a.cancelRequested ==> b.cancelRequested)
    && (Terminal(a.status) ==> b.status == a.status && b.output == a.output && b.finished == a.finished)
    && (b.status != a.status ==> (a.status.Queued? && b.status.Running?) || Terminal(b.status))
  }

  ghost predicate RunsAdvance(s: Store, t: Store) {
    s.runs.Keys <= t.runs.Keys && forall r :: r in s.runs ==> Advances(s.runs[r], t.runs[r])
  }

  /** A run is born queued, or cancelled when it was reserved for cancellation. */
  predicate BornWell(row: RunRow, reserved: bool) {
    row.contract && row.output.None? && row.finished == reserved && row.cancelRequested == reserved
    && row.status == if reserved then Cancelled else Queued
  }

  /** For the run writer's own rows, finished and terminal mean the same. */
  ghost predicate FinishedIsTerminal(s: Store) {
    forall r :: r in s.runs && s.runs[r].contract ==> (s.runs[r].finished <==> Terminal(s.runs[r].status))
  }

  lemma AdvancesIsTransitive(a: RunRow, b: RunRow, c: RunRow)
    requires Advances(a, b) && Advances(b, c)
    ensures Advances(a, c)
  {
  }

  // ---------------------------------------------------- effects of operations

  lemma AcceptEffect(s: Store, q: Request, c: Context, m: Id)
    ensures var (r, t) := Accept(s, q, c, m);
      && t.reserved == s.reserved
      && (t.runs != s.runs ==>
            && r.Ok? && q.run !in s.runs && t.runs == s.runs[q.run := AcceptedRow(s, q, c)]
            && r.value == Accepted(AcceptedRow(s, q, c), q.run !in s.reserved))
      && (r.Ok? && r.value.created ==> q.run !in s.runs && q.run !in s.reserved && q.run in t.runs)
  {
    hide Messaged;
    var (r, t) := Accept(s, q, c, m);
    if Clashes(s, q) == {} {
      assert q.run !in s.runs by { assert q.run !in Clashes(s, q); }
      var begun := s.(sessions := s.sessions[q.session := AcceptedSession(s, q, c)],
        runs := s.runs[q.run := AcceptedRow(s, q, c)]);
      MessagedShape(begun, q.run, m, "user", q.input, None, true);
    }
  }

  lemma TransitionEffect(s: Store, run: Id, status: Status, output: Option<string>, m: Id)
    ensures var (r, t) := Transition(s, run, status, output, m);
      && t.reserved == s.reserved && t.runs.Keys == s.runs.Keys
      && (forall k :: k in s.runs && k != run ==> t.runs[k] == s.runs[k])
      && (r.Ok? <==> run in s.runs && !RunQuarantined(s, run)
                     && (Terminal(s.runs[run].status) || Terminal(status)
                         || (status.Running? && s.runs[run].status.Queued?)))
      && (r.Ok? ==> t.runs[run] == r.value && Advances(s.runs[run], r.value))
      && (r.Ok? && !Terminal(s.runs[run].status) ==>
            r.value == s.runs[run].(status := status, output := output, finished := Terminal(status)))
      && (r.Raised? ==> t == s)
  {
    hide Messaged;
    if run in s.runs && output.Some? {
      var moved :=
        s.(runs := s.runs[run := s.runs[run].(status := status, output := output, finished := Terminal(status))]);
      MessagedShape(moved, run, m, "assistant", output.value, None, true);
    }
  }

  lemma BeginToolEffect(s: Store, c: Call, m: Id)
    ensures var t := BeginTool(s, c, m).1; t.runs == s.runs && t.reserved == s.reserved
  {
    hide Messaged, Enqueued;
    if c.run in s.runs {
      var row := s.runs[c.run];
      var put := s.(tools := s.tools[c := Tool(row.tenant, row.session, false, false, None, 1, 1)]);
      EnqueuedShape(put, OfTool(c));
      MessagedShape(Enqueued(put, OfTool(c)), c.run, m, "tool", "", Some(c.call), false);
    }
  }

  lemma ToolEffect(s: Store, op: Op)
    requires op.DoBegin? || op.DoFinish? || op.DoCreate? || op.DoEdit? || op.DoBackfill?
    ensures Step(s, op).runs == s.runs && Step(s, op).reserved == s.reserved
  {
    hide BeginTool;
    if op.DoBegin? { BeginToolEffect(s, op.call, op.m); }
  }

  // ----------------------------------------------------------- main results

  lemma AcceptAdvances(s: Store, q: Request, c: Context, m: Id)
    ensures var t := Accept(s, q, c, m).1;
      && RunsAdvance(s, t)
      && (forall r :: r in t.runs && r !in s.runs ==> BornWell(t.runs[r], r in s.reserved))
      && (FinishedIsTerminal(s) ==> FinishedIsTerminal(t))
  {
    AcceptEffect(s, q, c, m);
    hide Accept;
  }

  lemma TransitionAdvances(s: Store, run: Id, status: Status, output: Option<string>, m: Id)
    ensures var t := Transition(s, run, status, output, m).1;
      RunsAdvance(s, t) && t.runs.Keys == s.runs.Keys && (FinishedIsTerminal(s) ==> FinishedIsTerminal(t))
  {
    TransitionEffect(s, run, status, output, m);
    hide Transition;
  }

  lemma RequestCancelAdvances(s: Store, run: Id)
    ensures var t := RequestCancel(s, run).1;
      RunsAdvance(s, t) && t.runs.Keys == s.runs.Keys && (FinishedIsTerminal(s) ==> FinishedIsTerminal(t))
  {
  }

  lemma SameRunsAdvance(s: Store, t: Store)
    requires t.runs == s.runs
    ensures RunsAdvance(s, t) && (FinishedIsTerminal(s) ==> FinishedIsTerminal(t))
  {
  }

  lemma StepAdvances(s: Store, op: Op)
    requires !op.DoPurge?
    ensures RunsAdvance(s, Step(s, op))
    ensures forall r :: r in Step(s, op).runs && r !in s.runs ==> BornWell(Step(s, op).runs[r], r in s.reserved)
    ensures FinishedIsTerminal(s) ==> FinishedIsTerminal(Step(s, op))
  {
    hide Accept, Transition, RequestCancel, BeginTool, FinishTool, CreateSession, EditSession, Backfilled, RunsAdvance;
    hide FinishedIsTerminal, BornWell;
    match op
    case DoAccept(q, c, m) => AcceptAdvances(s, q, c, m);
    case DoTransition(run, status, output, m) => TransitionAdvances(s, run, status, output, m);
    case DoRequestCancel(run) => RequestCancelAdvances(s, run);
    case DoReserve(run, tenant, session) => SameRunsAdvance(s, Step(s, op));
    case _ =>
      ToolEffect(s, op);
      SameRunsAdvance(s, Step(s, op));
  }

  /** Without a purge, every row of a run of the store follows the automaton from where it was. */
  lemma {:induction false} RunAdvances(s: Store, ops: seq<Op>)
    requires forall i :: 0 <= i < |ops| ==> !ops[i].DoPurge?
    ensures RunsAdvance(s, Run(s, ops))
    ensures FinishedIsTerminal(s) ==> FinishedIsTerminal(Run(s, ops))
    decreases |ops|
  {
    hide Step, Advances, FinishedIsTerminal;
    if ops != [] {
      var t := Step(s, ops[0]);
      StepAdvances(s, ops[0]);
      RunAdvances(t, ops[1..]);
      forall r | r in s.runs ensures Advances(s.runs[r], Run(s, ops).runs[r]) {
        AdvancesIsTransitive(s.runs[r], t.runs[r], Run(s, ops).runs[r]);
      }
    } else {
      forall r | r in s.runs ensures Advances(s.runs[r], s.runs[r]) { Itself(s.runs[r]); }
    }
  }

  lemma Itself(a: RunRow)
    ensures Advances(a, a)
  {
  }

  lemma PurgeKeepsFinished(s: Store, x: Id, tenant: string, agent: string)
    requires FinishedIsTerminal(s)
    ensures FinishedIsTerminal(Purge(s, x, tenant, agent).1)
  {
    hide Removable, RootReferenced, DeleteIntents;
    var t := Purge(s, x, tenant, agent).1;
    forall r | r in t.runs ensures r in s.runs && t.runs[r].(parentRun := None) == s.runs[r].(parentRun := None) {
    }
  }

  /** Over every run of the store, purges included, the run writer's rows are finished exactly when terminal. */
  lemma {:induction false} RunKeepsFinished(s: Store, ops: seq<Op>)
    requires FinishedIsTerminal(s)
    ensures FinishedIsTerminal(Run(s, ops))
    decreases |ops|
  {
    hide Step, FinishedIsTerminal;
    if ops != [] {
      if ops[0].DoPurge? {
        PurgeStep(s, ops[0].x, ops[0].tenant, ops[0].agent);
        PurgeKeepsFinished(s, ops[0].x, ops[0].tenant, ops[0].agent);
      } else {
        StepAdvances(s, ops[0]);
      }
      RunKeepsFinished(Step(s, ops[0]), ops[1..]);
    }
  }

  lemma PurgeStep(s: Store, x: Id, tenant: string, agent: string)
    ensures Step(s, DoPurge(x, tenant, agent)) == Purge(s, x, tenant, agent).1
  {
  }
}

/**
 Executions of runs in one process after another: submission, checks, start, outcome, cancellation, crash and recovery.
 */
module RunService {
  import opened Prelude
  import opened RuntimeTables
  import opened RunAutomaton

  /**
   `Admitted`: accepted and not yet a task. `Publishing`: the result is there and the intent to cancel was read.
   `Ended`: the coroutine is gone, however it went.
   */
  datatype Phase = Admitted | Spawned | Checked | Executing | Publishing(cancelled: bool) | Ended

  /** `starts` records each start of the executor with the status its transition answered. */
  datatype State = State(
    store: Store, execs: map<Id, Phase>, cancelling: set<Id>, starts: seq<(Id, Status)>, up: bool)

  datatype Event =
    | Submit(q: Request, c: Context, m: Id)
    | Spawn(run: Id)
    | Check(run: Id, m: Id)
    | Start(run: Id, m: Id)
    | Observe(run: Id)
    | Publish(run: Id, result: string, m: Id)
    | Fail(run: Id, status: Status, output: Option<string>, m: Id)
    | Die(run: Id)
    | Cancel(run: Id)
    | CancelEnd(run: Id, m: Id)
    | CloseEnd(run: Id, m: Id)
    | Reserve(run: Id, tenant: string, session: Id)
    | Crash
    | Recovery(op: Op)
    | Restart
    | Other(op: Op)

  predicate Live(p: Phase) { p.Spawned? || p.Checked? || p.Executing? || p.Publishing? }

  predicate Enabled(s: State, e: Event) {
    match e
    case Submit(_, _, _) => s.up
    case Spawn(r) => r in s.execs && s.execs[r].Admitted?
    case Check(r, _) => r in s.execs && s.execs[r].Spawned? && r in s.store.runs && !RunQuarantined(s.store, r)
    case Start(r, _) => r in s.execs && s.execs[r].Checked?
    case Observe(r) => r in s.execs && s.execs[r].Executing? && r in s.store.runs && !RunQuarantined(s.store, r)
    case Publish(r, _, _) => r in s.execs && s.execs[r].Publishing? && r in s.store.runs && !RunQuarantined(s.store, r)
    case Fail(r, status, _, _) => r in s.execs && Live(s.execs[r]) && Terminal(status) && !status.Success?
    case Die(r) => r in s.execs && !s.execs[r].Ended?
    case Cancel(_) => s.up
    case CancelEnd(r, _) => r in s.cancelling && r in s.execs && s.execs[r].Ended?
    case CloseEnd(r, _) => r in s.execs && s.execs[r].Ended?
    case Reserve(_, _, _) => s.up
    case Crash => true
    case Recovery(op) => !s.up && (op.DoFinish? || (op.DoTransition? && op.status.Interrupted?) || op.DoBackfill?)
    case Restart => !s.up
    case Other(op) => op.DoBegin? || op.DoFinish? || op.DoCreate? || op.DoEdit?
  }

  function Step(s: State, e: Event): State
    requires Enabled(s, e)
  {
    match e
    case Submit(q, c, m) =>
      var (r, store) := Accept(s.store, q, c, m);
      s.(store := store, execs := if r.Ok? && r.value.created then s.execs[q.run := Admitted] else s.execs)
    case Spawn(r) => s.(execs := s.execs[r := Spawned])
    case Check(r, m) =>
      if s.store.runs[r].cancelRequested
      then s.(store := Transition(s.store, r, Cancelled, None, m).1, execs := s.execs[r := Ended])
      else s.(execs := s.execs[r := Checked])
    case Start(r, m) =>
      var (res, store) := Transition(s.store, r, Running, None, m);
      if res.Ok? then s.(store := store, execs := s.execs[r := Executing], starts := s.starts + [(r, res.value.status)])
      else s
    case Observe(r) => s.(execs := s.execs[r := Publishing(s.store.runs[r].cancelRequested)])
    case Publish(r, result, m) =>
      var cancelled := s.execs[r].cancelled;
      var status, output := if cancelled then Cancelled else Success, if cancelled then None else Some(result);
      s.(store := Transition(s.store, r, status, output, m).1, execs := s.execs[r := Ended])
    case Fail(r, status, output, m) =>
      s.(store := Transition(s.store, r, status, output, m).1, execs := s.execs[r := Ended])
    case Die(r) => s.(execs := s.execs[r := Ended])
    case Cancel(r) =>
      s.(store := RequestCancel(s.store, r).1,
         cancelling := if r in s.execs && Live(s.execs[r]) then s.cancelling + {r} else s.cancelling)
    case CancelEnd(r, m) =>
      s.(store := Transition(s.store, r, Cancelled, None, m).1, cancelling := s.cancelling - {r})
    case CloseEnd(r, m) => s.(store := Transition(s.store, r, Interrupted, None, m).1)
    case Reserve(r, tenant, session) => s.(store := ReserveCancel(s.store, r, tenant, session).1)
    case Crash => s.(execs := map r | r in s.execs :: Ended, cancelling := {}, up := false)
    case Recovery(op) => s.(store := RuntimeTables.Step(s.store, op))
    case Restart => s.(up := true)
    case Other(op) => s.(store := RuntimeTables.Step(s.store, op))
  }

  predicate Legal(s: State, es: seq<Event>)
    decreases |es|
  {
    es == [] || (Enabled(s, es[0]) && Legal(Step(s, es[0]), es[1..]))
  }

  function Run(s: State, es: seq<Event>): State
    requires Legal(s, es)
    decreases |es|
  {
    if es == [] then s else Run(Step(s, es[0]), es[1..])
  }

  const Init := State(Empty, map[], {}, [], true)

  // ------------------------------------------------------------- invariant

  predicate Started(s: State, r: Id) {
    exists i :: 0 <= i < |s.starts| && s.starts[i].0 == r
  }

  predicate ExecsAreQueued(s: State) {
    && (forall r :: r in s.execs ==> r in s.store.runs && r !in s.store.reserved)
    && (forall r :: r in s.execs && (s.execs[r].Admitted? || s.execs[r].Spawned? || s.execs[r].Checked?) ==>
          s.store.runs[r].status.Queued? && !Started(s, r))
    && (!s.up ==> forall r :: r in s.execs ==> s.execs[r].Ended?)
  }

  predicate StartsAreGood(s: State) {
    && (forall i, j :: 0 <= i < j < |s.starts| ==> s.starts[i].0 != s.starts[j].0)
    && (forall i :: 0 <= i < |s.starts| ==> s.starts[i].0 in s.execs && s.starts[i].1.Running?)
  }

  predicate Inv(s: State) {
    ExecsAreQueued(s) && StartsAreGood(s)
  }

  /** The store operation of an event never touches the rows of other runs. */
  predicate OnlyRun(s: Store, t: Store, r: Id) {
    && t.reserved == s.reserved && t.runs.Keys == s.runs.Keys
    && forall k :: k in s.runs && k != r ==> t.runs[k] == s.runs[k]
  }

  lemma TransitionOnlyRun(s: Store, r: Id, status: Status, output: Option<string>, m: Id)
    ensures OnlyRun(s, Transition(s, r, status, output, m).1, r)
  {
    TransitionEffect(s, r, status, output, m);
  }

  lemma EndKeeps(s: State, t: State, r: Id)
    requires Inv(s) && OnlyRun(s.store, t.store, r) && t.starts == s.starts && t.up == s.up
    requires r in s.execs && t.execs == s.execs[r := Ended]
    ensures Inv(t)
  {
  }

  lemma StartKeeps(s: State, r: Id, m: Id)
    requires Inv(s) && Enabled(s, Start(r, m))
    ensures Inv(Step(s, Start(r, m)))
  {
    TransitionEffect(s.store, r, Running, None, m);
    hide Transition;
    var t := Step(s, Start(r, m));
    if t != s {
      NewStart(s, t, r);
      StartedKeeps(s, t, r);
    }
  }

  lemma StartedKeeps(s: State, t: State, r: Id)
    requires Inv(s) && r in s.execs && s.execs[r].Checked? && t.execs == s.execs[r := Executing] && t.up == s.up
    requires OnlyRun(s.store, t.store, r)
    requires |t.starts| == |s.starts| + 1 && t.starts[|s.starts|].0 == r && t.starts[|s.starts|].1.Running?
    requires forall k :: k != r && Started(t, k) ==> Started(s, k)
    requires forall i :: 0 <= i < |s.starts| ==> t.starts[i] == s.starts[i] && s.starts[i].0 != r
    ensures Inv(t)
  {
    assert ExecsAreQueued(t) by { hide StartsAreGood; }
    assert StartsAreGood(t) by { hide Started; }
  }

  lemma NewStart(s: State, t: State, r: Id)
    requires Inv(s) && r in s.execs && s.execs[r].Checked?
    requires |t.starts| == |s.starts| + 1 && t.starts[..|s.starts|] == s.starts && t.starts[|s.starts|].0 == r
    ensures forall k :: k != r && Started(t, k) ==> Started(s, k)
    ensures forall i :: 0 <= i < |s.starts| ==> t.starts[i] == s.starts[i] && s.starts[i].0 != r
  {
    assert forall i :: 0 <= i < |s.starts| ==> t.starts[i] == t.starts[..|s.starts|][i];
    forall k | k != r && Started(t, k) ensures Started(s, k) {
      var i :| 0 <= i < |t.starts| && t.starts[i].0 == k;
      assert s.starts[i].0 == k;
    }
    forall i | 0 <= i < |s.starts| ensures s.starts[i].0 != r {
      if s.starts[i].0 == r { assert Started(s, r); }
    }
  }

  lemma SubmitKeeps(s: State, q: Request, c: Context, m: Id)
    requires Inv(s) && s.up
    ensures Inv(Step(s, Submit(q, c, m)))
  {
    AcceptEffect(s.store, q, c, m);
    hide Accept;
    var t := Step(s, Submit(q, c, m));
    assert forall k :: Started(t, k) ==> Started(s, k);
    if t.execs != s.execs {
      assert !Started(s, q.run);
    }
  }

  lemma OtherKeeps(s: State, e: Event)
    requires Inv(s) && Enabled(s, e) && (e.Other? || e.Reserve? || e.Cancel?)
    ensures Inv(Step(s, e))
  {
    hide BeginTool, FinishTool, CreateSession, EditSession;
    if e.Other? { ToolEffect(s.store, e.op); }
    var t := Step(s, e);
    assert forall k :: Started(t, k) ==> Started(s, k);
  }

  lemma RecoveryKeeps(s: State, op: Op)
    requires Inv(s) && Enabled(s, Recovery(op))
    ensures Inv(Step(s, Recovery(op)))
  {
    hide FinishTool, Transition, Backfilled;
    if op.DoTransition? {
      TransitionEffect(s.store, op.run, op.status, op.output, op.m);
    } else {
      ToolEffect(s.store, op);
    }
    var t := Step(s, Recovery(op));
    assert forall k :: Started(t, k) ==> Started(s, k);
  }

  lemma StepKeeps(s: State, e: Event)
    requires Inv(s) && Enabled(s, e)
    ensures Inv(Step(s, e))
  {
    hide Transition, Accept, RequestCancel, ReserveCancel, ExecsAreQueued, StartsAreGood;
    var t := Step(s, e);
    match e
    case Submit(q, c, m) => SubmitKeeps(s, q, c, m);
    case Start(r, m) => StartKeeps(s, r, m);
    case Check(r, m) => CheckKeeps(s, r, m);
    case Publish(r, output, m) =>
      var cancelled := s.execs[r].cancelled;
      TransitionOnlyRun(s.store, r, if cancelled then Cancelled else Success, if cancelled then None else Some(output),
        m);
      EndKeeps(s, t, r);
    case Fail(r, status, output, m) =>
      TransitionOnlyRun(s.store, r, status, output, m);
      EndKeeps(s, t, r);
    case Die(r) => EndKeeps(s, t, r);
    case CancelEnd(r, m) =>
      TransitionOnlyRun(s.store, r, Cancelled, None, m);
      assert s.execs[r := Ended] == s.execs;
      EndKeeps(s, t, r);
    case CloseEnd(r, m) =>
      TransitionOnlyRun(s.store, r, Interrupted, None, m);
      assert s.execs[r := Ended] == s.execs;
      EndKeeps(s, t, r);
    case Recovery(op) => RecoveryKeeps(s, op);
    case Spawn(r) => SpawnKeeps(s, r);
    case Observe(r) => ObserveKeeps(s, r);
    case Crash => CrashKeeps(s);
    case Restart => CrashKeeps(s);
    case _ => OtherKeeps(s, e);
  }

  lemma CheckKeeps(s: State, r: Id, m: Id)
    requires Inv(s) && Enabled(s, Check(r, m))
    ensures Inv(Step(s, Check(r, m)))
  {
    hide Transition;
    TransitionOnlyRun(s.store, r, Cancelled, None, m);
    var t := Step(s, Check(r, m));
    if s.store.runs[r].cancelRequested {
      EndKeeps(s, t, r);
    } else {
      assert forall k :: Started(t, k) ==> Started(s, k);
    }
  }

  lemma SpawnKeeps(s: State, r: Id)
    requires Inv(s) && Enabled(s, Spawn(r))
    ensures Inv(Step(s, Spawn(r)))
  {
    var t := Step(s, Spawn(r));
    assert forall k :: Started(t, k) ==> Started(s, k);
  }

  lemma ObserveKeeps(s: State, r: Id)
    requires Inv(s) && Enabled(s, Observe(r))
    ensures Inv(Step(s, Observe(r)))
  {
    var t := Step(s, Observe(r));
    assert forall k :: Started(t, k) ==> Started(s, k);
  }

  lemma CrashKeeps(s: State)
    requires Inv(s)
    ensures Inv(Step(s, Crash))
    ensures !s.up ==> Inv(Step(s, Restart))
  {
    var t := s.(up := true);
    assert forall k :: Started(t, k) ==> Started(s, k);
  }

  lemma {:induction false} RunKeeps(s: State, es: seq<Event>)
    requires Inv(s) && Legal(s, es)
    ensures Inv(Run(s, es))
    decreases |es|
  {
    hide Inv, Enabled;
    if es != [] {
      StepKeeps(s, es[0]);
      RunKeeps(Step(s, es[0]), es[1..]);
    }
  }

  // ----------------------------------------------------------- main results

  /** The executor starts at most once per run, and only as the run goes from queued to running. */
  lemma StartsAtMostOnce(es: seq<Event>)
    requires Legal(Init, es)
    ensures forall i, j :: 0 <= i < j < |Run(Init, es).starts| ==>
              Run(Init, es).starts[i].0 != Run(Init, es).starts[j].0
    ensures forall i :: 0 <= i < |Run(Init, es).starts| ==> Run(Init, es).starts[i].1.Running?
  {
    RunKeeps(Init, es);
  }

  /** Reserved for cancellation before acceptance, or asked to cancel before its check, or over before its start. */
  predicate Barred(s: State, r: Id) {
    !Started(s, r) &&
    if r in s.execs then s.execs[r].Ended?
        || ((s.execs[r].Admitted? || s.execs[r].Spawned?) && r in s.store.runs && s.store.runs[r].cancelRequested)
    else r in s.store.runs || r in s.store.reserved
  }

  /** What can happen to the parts `Barred` looks at without lifting it. */
  predicate Onward(s: State, t: State, r: Id) {
    && s.store.runs.Keys <= t.store.runs.Keys && s.store.reserved.Keys <= t.store.reserved.Keys
    && (forall k :: k in s.store.runs && s.store.runs[k].cancelRequested ==> t.store.runs[k].cancelRequested)
    && t.starts == s.starts && (r in t.execs <==> r in s.execs)
    && (r in s.execs ==>
          || t.execs[r] == s.execs[r] || t.execs[r].Ended? || (s.execs[r].Admitted? && t.execs[r].Spawned?)
          || (s.execs[r].Executing? && t.execs[r].Publishing?))
  }

  lemma OnwardKeepsBarred(s: State, t: State, r: Id)
    requires Barred(s, r) && Onward(s, t, r)
    ensures Barred(t, r)
  {
  }

  lemma TransitionOnward(s: Store, k: Id, status: Status, output: Option<string>, m: Id)
    ensures var t := Transition(s, k, status, output, m).1;
      && s.runs.Keys <= t.runs.Keys && s.reserved.Keys <= t.reserved.Keys
      && (forall j :: j in s.runs && s.runs[j].cancelRequested ==> t.runs[j].cancelRequested)
  {
    TransitionEffect(s, k, status, output, m);
    hide Transition;
  }

  lemma StartKeepsBarred(s: State, k: Id, m: Id, r: Id)
    requires Inv(s) && Enabled(s, Start(k, m)) && Barred(s, r)
    ensures Barred(Step(s, Start(k, m)), r)
  {
    TransitionOnward(s.store, k, Running, None, m);
    hide Transition, StartsAreGood;
    var t := Step(s, Start(k, m));
    if t != s {
      assert k != r;
      assert forall i :: 0 <= i < |t.starts| ==> t.starts[i].0 == k || (i < |s.starts| && t.starts[i] == s.starts[i]);
      assert !Started(t, r);
    }
  }

  lemma SubmitKeepsBarred(s: State, q: Request, c: Context, m: Id, r: Id)
    requires Inv(s) && Enabled(s, Submit(q, c, m)) && Barred(s, r)
    ensures Barred(Step(s, Submit(q, c, m)), r)
  {
    AcceptEffect(s.store, q, c, m);
    hide Accept, StartsAreGood, Barred;
    var t := Step(s, Submit(q, c, m));
    assert t.execs != s.execs ==> q.run != r by { BarredIsKnown(s, r); }
    OnwardKeepsBarred(s, t, r);
  }

  lemma BarredIsKnown(s: State, r: Id)
    requires Inv(s) && Barred(s, r)
    ensures r in s.store.runs || r in s.store.reserved
  {
  }

  lemma CheckKeepsBarred(s: State, k: Id, m: Id, r: Id)
    requires Inv(s) && Enabled(s, Check(k, m)) && Barred(s, r)
    ensures Barred(Step(s, Check(k, m)), r)
  {
    TransitionOnward(s.store, k, Cancelled, None, m);
    hide Transition;
  }

  lemma EndIsOnward(s: State, e: Event, r: Id)
    requires Enabled(s, e) && (e.Publish? || e.Fail? || e.CancelEnd? || e.CloseEnd?)
    ensures Onward(s, Step(s, e), r)
  {
    hide Transition;
    match e
    case Publish(k, result, m) =>
      var cancelled := s.execs[k].cancelled;
      TransitionOnward(s.store, k, if cancelled then Cancelled else Success, if cancelled then None else Some(result),
        m);
    case Fail(k, status, output, m) => TransitionOnward(s.store, k, status, output, m);
    case CancelEnd(k, m) => TransitionOnward(s.store, k, Cancelled, None, m);
    case CloseEnd(k, m) => TransitionOnward(s.store, k, Interrupted, None, m);
  }

  lemma StoreOpIsOnward(s: State, e: Event, r: Id)
    requires Enabled(s, e) && (e.Recovery? || e.Other?)
    ensures Onward(s, Step(s, e), r)
  {
    hide Transition, BeginTool, FinishTool, CreateSession, EditSession, Backfilled;
    if e.op.DoTransition? {
      TransitionOnward(s.store, e.op.run, e.op.status, e.op.output, e.op.m);
    } else {
      ToolEffect(s.store, e.op);
    }
  }

  lemma QuietIsOnward(s: State, e: Event, r: Id)
    requires Enabled(s, e) && (e.Spawn? || e.Observe? || e.Die? || e.Cancel? || e.Reserve? || e.Crash? || e.Restart?)
    ensures Onward(s, Step(s, e), r)
  {
  }

  lemma BarredStays(s: State, e: Event, r: Id)
    requires Inv(s) && Enabled(s, e) && Barred(s, r)
    ensures Barred(Step(s, e), r)
  {
    hide Step, Enabled, Barred, Inv, Onward;
    if e.Submit? {
      SubmitKeepsBarred(s, e.q, e.c, e.m, r);
    } else if e.Start? {
      StartKeepsBarred(s, e.run, e.m, r);
    } else if e.Check? {
      CheckKeepsBarred(s, e.run, e.m, r);
    } else {
      if e.Publish? || e.Fail? || e.CancelEnd? || e.CloseEnd? {
        EndIsOnward(s, e, r);
      } else if e.Recovery? || e.Other? {
        StoreOpIsOnward(s, e, r);
      } else {
        QuietIsOnward(s, e, r);
      }
      OnwardKeepsBarred(s, Step(s, e), r);
    }
  }

  /** Such a run is never executed, whatever retries, cancellations, crashes and recoveries follow. */
  lemma {:induction false} BarredNeverStarts(s: State, es: seq<Event>, r: Id)
    requires Inv(s) && Legal(s, es) && Barred(s, r)
    ensures Barred(Run(s, es), r) && !Started(Run(s, es), r)
    decreases |es|
  {
    hide Inv, Enabled, Barred;
    if es != [] {
      StepKeeps(s, es[0]);
      BarredStays(s, es[0], r);
      BarredNeverStarts(Step(s, es[0]), es[1..], r);
    } else {
      BarredIsNotStarted(s, r);
    }
  }

  lemma BarredIsNotStarted(s: State, r: Id)
    requires Barred(s, r)
    ensures !Started(s, r)
  {
  }

  lemma ReservedIsBarred(s: State, r: Id)
    requires Inv(s) && r in s.store.reserved
    ensures Barred(s, r)
  {
  }

  /** A run reserved for cancellation before its acceptance never executes. */
  lemma ReservedNeverExecutes(es: seq<Event>, later: seq<Event>, r: Id)
    requires Legal(Init, es) && r in Run(Init, es).store.reserved && Legal(Run(Init, es), later)
    ensures !Started(Run(Run(Init, es), later), r)
  {
    RunKeeps(Init, es);
    ReservedIsBarred(Run(Init, es), r);
    BarredNeverStarts(Run(Init, es), later, r);
  }
}
