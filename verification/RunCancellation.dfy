/**
 Asking a run to cancel. Its result is published in two steps, reading the intent and writing the outcome,
 and a request that comes between them is too late.
 */
module RunCancellation {
  import opened Prelude
  import opened RuntimeTables
  import opened RunAutomaton
  import S = RunService

  /** The run was asked before its coroutine read the intent. */
  predicate AskedInTime(s: S.State, r: Id) {
    && r in s.store.runs && s.store.runs[r].cancelRequested && !s.store.runs[r].status.Success?
    && !(r in s.execs && s.execs[r] == S.Publishing(false))
  }

  lemma TransitionMovesOne(s: Store, k: Id, status: Status, output: Option<string>, m: Id, r: Id)
    requires r in s.runs && s.runs[r].cancelRequested && !s.runs[r].status.Success? && (status.Success? ==> k != r)
    ensures var t := Transition(s, k, status, output, m).1;
      r in t.runs && t.runs[r].cancelRequested && !t.runs[r].status.Success?
  {
    TransitionEffect(s, k, status, output, m);
    hide Transition;
  }

  lemma SubmitLeaves(s: Store, q: Request, c: Context, m: Id, r: Id)
    requires r in s.runs
    ensures var t := Accept(s, q, c, m);
      r in t.1.runs && t.1.runs[r] == s.runs[r] && (q.run == r && t.0.Ok? ==> !t.0.value.created)
  {
    AcceptEffect(s, q, c, m);
    hide Accept;
  }

  lemma CoroutineKeepsAsked(s: S.State, e: S.Event, r: Id)
    requires S.Enabled(s, e) && AskedInTime(s, r)
    requires e.Check? || e.Start? || e.Publish? || e.Fail? || e.CancelEnd? || e.CloseEnd?
    ensures AskedInTime(S.Step(s, e), r)
  {
    match e
    case Check(k, m) => TransitionMovesOne(s.store, k, Cancelled, None, m, r);
    case Start(k, m) => TransitionMovesOne(s.store, k, Running, None, m, r);
    case Publish(k, result, m) =>
      var cancelled := s.execs[k].cancelled;
      TransitionMovesOne(s.store, k, if cancelled then Cancelled else Success, if cancelled then None else Some(result),
        m, r);
    case Fail(k, status, output, m) => TransitionMovesOne(s.store, k, status, output, m, r);
    case CancelEnd(k, m) => TransitionMovesOne(s.store, k, Cancelled, None, m, r);
    case CloseEnd(k, m) => TransitionMovesOne(s.store, k, Interrupted, None, m, r);
    hide Transition;
  }

  lemma StoreKeepsAsked(s: S.State, e: S.Event, r: Id)
    requires S.Enabled(s, e) && AskedInTime(s, r) && (e.Submit? || e.Recovery? || e.Other?)
    ensures AskedInTime(S.Step(s, e), r)
  {
    hide Accept, Transition, BeginTool, FinishTool, CreateSession, EditSession, Backfilled;
    if e.Submit? {
      SubmitLeaves(s.store, e.q, e.c, e.m, r);
    } else if e.op.DoTransition? {
      TransitionMovesOne(s.store, e.op.run, e.op.status, e.op.output, e.op.m, r);
    } else {
      ToolEffect(s.store, e.op);
    }
  }

  lemma StepKeepsAsked(s: S.State, e: S.Event, r: Id)
    requires S.Enabled(s, e) && AskedInTime(s, r)
    ensures AskedInTime(S.Step(s, e), r)
  {
    if e.Check? || e.Start? || e.Publish? || e.Fail? || e.CancelEnd? || e.CloseEnd? {
      CoroutineKeepsAsked(s, e, r);
    } else if e.Submit? || e.Recovery? || e.Other? {
      StoreKeepsAsked(s, e, r);
    }
    hide Transition, Accept, BeginTool, FinishTool, CreateSession, EditSession, Backfilled;
  }

  /** A run asked in time never ends in success, whatever follows. */
  lemma {:induction false} AskedRunsNeverSucceed(s: S.State, es: seq<S.Event>, r: Id)
    requires S.Legal(s, es) && AskedInTime(s, r)
    ensures AskedInTime(S.Run(s, es), r)
    decreases |es|
  {
    hide S.Enabled, S.Step, AskedInTime;
    if es != [] {
      StepKeepsAsked(s, es[0], r);
      AskedRunsNeverSucceed(S.Step(s, es[0]), es[1..], r);
    }
  }

  predicate SucceedsAfter(s: S.State, es: seq<S.Event>, r: Id) {
    S.Legal(s, es) && r in S.Run(s, es).store.runs && S.Run(s, es).store.runs[r].status.Success?
  }

  lemma OneStep(s: S.State, e: S.Event)
    requires S.Enabled(s, e)
    ensures S.Legal(s, [e]) && S.Run(s, [e]) == S.Step(s, e)
  {
    hide S.Enabled, S.Step;
    assert [e][1..] == [];
  }

  /** A run that was asked to cancel can still succeed exactly when its coroutine had read the intent before. */
  lemma CancellationIsExact(s: S.State, r: Id)
    requires r in s.store.runs && s.store.runs[r].cancelRequested && !Terminal(s.store.runs[r].status)
    requires !RunQuarantined(s.store, r)
    ensures (exists es :: SucceedsAfter(s, es, r)) <==> r in s.execs && s.execs[r] == S.Publishing(false)
  {
    if r in s.execs && s.execs[r] == S.Publishing(false) {
      PublicationIsExact(s, r, "", "");
      var es := [S.Publish(r, "", "")];
      OneStep(s, S.Publish(r, "", ""));
      assert SucceedsAfter(s, es, r);
    } else {
      assert AskedInTime(s, r);
      forall es | S.Legal(s, es) ensures !SucceedsAfter(s, es, r) {
        AskedRunsNeverSucceed(s, es, r);
      }
    }
  }

  /**
   What is published is what was read: without a request the run succeeds with its result and an answer of the
   assistant, with one it is cancelled and says nothing.
   */
  lemma PublicationIsExact(s: S.State, r: Id, result: string, m: Id)
    requires S.Enabled(s, S.Publish(r, result, m)) && !Terminal(s.store.runs[r].status)
    ensures var row, t := s.store.runs[r], S.Step(s, S.Publish(r, result, m));
      && t.execs[r].Ended? && r in t.store.runs
      && (s.execs[r].cancelled ==>
            && t.store.runs == s.store.runs[r := row.(status := Cancelled, output := None, finished := true)]
            && t.store.messages == s.store.messages)
      && (!s.execs[r].cancelled ==>
            && t.store.runs == s.store.runs[r := row.(status := Success, output := Some(result), finished := true)]
            && t.store.messages
               == s.store.messages[m := Message(row.tenant, row.session, Some(r), "assistant", result, None, true, 1)])
  {
    var row := s.store.runs[r];
    var moved := s.store.(runs := s.store.runs[r := row.(status := Success, output := Some(result), finished := true)]);
    MessagedShape(moved, r, m, "assistant", result, None, true);
    hide Messaged;
  }

  /** A reading is of the moment: the request to cancel that is there, and no other, is published. */
  lemma ObservationIsExact(s: S.State, r: Id)
    requires S.Enabled(s, S.Observe(r))
    ensures S.Step(s, S.Observe(r)) == s.(execs := s.execs[r := S.Publishing(s.store.runs[r].cancelRequested)])
  {
  }

  /** A run: the request to cancel comes between the two steps, is recorded, and the run succeeds all the same. */
  lemma LateRequestIsLost() returns (es: seq<S.Event>)
    ensures S.Legal(S.Init, es)
    ensures "r" in S.Run(S.Init, es).store.runs
    ensures S.Run(S.Init, es).store.runs["r"].cancelRequested && S.Run(S.Init, es).store.runs["r"].status.Success?
  {
    hide S.Legal, S.Run, Messaged;
    var q, c := Request("r", "x", "k", "d", "input"), Context("t", "a", None);
    var s: S.State;
    es, s := Queued(q, c);
    es, s := Then(es, s, S.Spawn("r"));
    es, s := Then(es, s, S.Check("r", ""));
    RunningNow(s);
    es, s := Then(es, s, S.Start("r", ""));
    es, s := Then(es, s, S.Observe("r"));
    es, s := Then(es, s, S.Cancel("r"));
    assert s.store.runs["r"].cancelRequested && s.execs["r"] == S.Publishing(false);
    PublicationIsExact(s, "r", "", "n");
    es, s := Then(es, s, S.Publish("r", "", "n"));
  }

  lemma RunningNow(s: S.State)
    requires "r" in s.store.runs && s.store.runs["r"].status.Queued? && !RunQuarantined(s.store, "r")
    ensures var row := s.store.runs["r"].(status := Running, output := None, finished := false);
      Transition(s.store, "r", Running, None, "") == (Ok(row), s.store.(runs := s.store.runs["r" := row]))
  {
    hide Messaged;
  }

  lemma Queued(q: Request, c: Context) returns (es: seq<S.Event>, s: S.State)
    requires q.run == "r" && c.parentRun == None
    ensures S.Legal(S.Init, es) && S.Run(S.Init, es) == s && s.up && s.execs == map["r" := S.Admitted]
    ensures "r" in s.store.runs && s.store.runs["r"].status.Queued? && !s.store.runs["r"].cancelRequested
    ensures !RunQuarantined(s.store, "r")
  {
    hide Messaged;
    assert Clashes(Empty, q) == {};
    var begun :=
      Empty.(sessions := map[q.session := AcceptedSession(Empty, q, c)], runs := map["r" := AcceptedRow(Empty, q, c)]);
    MessagedShape(begun, "r", "m", "user", q.input, None, true);
    assert Accept(Empty, q, c, "m") == (Ok(Accepted(AcceptedRow(Empty, q, c), true)),
      Messaged(begun, "r", "m", "user", q.input, None, true));
    assert S.Legal(S.Init, []) && S.Run(S.Init, []) == S.Init;
    hide S.Legal, S.Run, Accept;
    es, s := Then([], S.Init, S.Submit(q, c, "m"));
  }

  lemma {:induction false} RunAppends(s: S.State, es: seq<S.Event>, e: S.Event)
    requires S.Legal(s, es) && S.Enabled(S.Run(s, es), e)
    ensures S.Legal(s, es + [e]) && S.Run(s, es + [e]) == S.Step(S.Run(s, es), e)
    decreases |es|
  {
    hide S.Enabled, S.Step;
    if es != [] {
      assert (es + [e])[1..] == es[1..] + [e];
      RunAppends(S.Step(s, es[0]), es[1..], e);
    } else {
      assert es + [e] == [e] && [e][1..] == [];
    }
  }

  /** One more event at the end of a run from the start. */
  lemma Then(es: seq<S.Event>, s: S.State, e: S.Event) returns (longer: seq<S.Event>, t: S.State)
    requires S.Legal(S.Init, es) && S.Run(S.Init, es) == s && S.Enabled(s, e)
    ensures S.Legal(S.Init, longer) && S.Run(S.Init, longer) == t && t == S.Step(s, e)
  {
    RunAppends(S.Init, es, e);
    longer, t := es + [e], S.Step(s, e);
  }

  // ------------------------------------------------ what segments write

  /** The run ends with the status and output, unless it had ended before; no other row of a run moves. */
  predicate EndsWith(s: Store, t: Store, r: Id, status: Status, output: Option<string>) {
    t.runs == if r in s.runs && !RunQuarantined(s, r) && !Terminal(s.runs[r].status)
              then s.runs[r := s.runs[r].(status := status, output := output, finished := true)] else s.runs
  }

  lemma TransitionEnds(s: Store, r: Id, status: Status, output: Option<string>, m: Id)
    requires Terminal(status)
    ensures EndsWith(s, Transition(s, r, status, output, m).1, r, status, output)
  {
    TransitionEffect(s, r, status, output, m);
    var t := Transition(s, r, status, output, m).1;
    if r in s.runs && !RunQuarantined(s, r) {
      assert Terminal(s.runs[r].status) ==> t == s;
      assert t.runs == s.runs[r := t.runs[r]];
    }
    hide Messaged;
  }

  /** A check ends a run that was asked, and lets any other go on to its start, which makes it run. */
  lemma ChecksAndStarts(s: S.State, r: Id, m: Id)
    ensures S.Enabled(s, S.Check(r, m)) ==>
              var t := S.Step(s, S.Check(r, m)); var asked := s.store.runs[r].cancelRequested;
              && t.execs == s.execs[r := if asked then S.Ended else S.Checked]
              && (asked ==> EndsWith(s.store, t.store, r, Cancelled, None)) && (!asked ==> t.store == s.store)
    ensures S.Enabled(s, S.Start(r, m)) && r in s.store.runs && s.store.runs[r].status.Queued?
            && !RunQuarantined(s.store, r) ==>
              var t := S.Step(s, S.Start(r, m));
              && t.execs == s.execs[r := S.Executing] && t.starts == s.starts + [(r, Running)]
              && t.store.runs
                 == s.store.runs[r := s.store.runs[r].(status := Running, output := None, finished := false)]
  {
    TransitionEnds(s.store, r, Cancelled, None, m);
    TransitionEffect(s.store, r, Running, None, m);
    if S.Enabled(s, S.Start(r, m)) && r in s.store.runs {
      var t := S.Step(s, S.Start(r, m));
      assert r in t.store.runs && t.store.runs.Keys == s.store.runs.Keys;
      assert t.store.runs == s.store.runs[r := t.store.runs[r]];
    }
    hide Transition, EndsWith;
  }

  /** Failing, a cancellation and the close of the runtime end the run with their status. */
  lemma EndingsAreWritten(s: S.State, e: S.Event)
    requires S.Enabled(s, e) && (e.Fail? || e.CancelEnd? || e.CloseEnd?)
    ensures var t := S.Step(s, e);
      match e
      case Fail(r, status, output, m) =>
        && EndsWith(s.store, t.store, r, status, output)
        && t.execs == s.execs[r := S.Ended] && t.cancelling == s.cancelling
      case CancelEnd(r, m) =>
        EndsWith(s.store, t.store, r, Cancelled, None) && t.execs == s.execs && t.cancelling == s.cancelling - {r}
      case CloseEnd(r, m) =>
        EndsWith(s.store, t.store, r, Interrupted, None) && t.execs == s.execs && t.cancelling == s.cancelling
      case _ => true
  {
    match e
    case Fail(r, status, output, m) => TransitionEnds(s.store, r, status, output, m);
    case CancelEnd(r, m) => TransitionEnds(s.store, r, Cancelled, None, m);
    case CloseEnd(r, m) => TransitionEnds(s.store, r, Interrupted, None, m);
    hide Transition, EndsWith;
  }

  /** A request to cancel is recorded, and interrupts the run's coroutine while there is one. */
  lemma CancelIsExact(s: S.State, r: Id)
    requires s.up
    ensures var t := S.Step(s, S.Cancel(r));
      && t == s.(store := t.store, cancelling := t.cancelling)
      && t.store.runs == (if r in s.store.runs && !RunQuarantined(s.store, r) && !Terminal(s.store.runs[r].status)
                          then s.store.runs[r := s.store.runs[r].(cancelRequested := true)] else s.store.runs)
      && (forall k :: k in t.cancelling <==>
            k in s.cancelling || (k == r && r in s.execs && !s.execs[r].Admitted? && !s.execs[r].Ended?))
  {
    if r in s.store.runs && s.store.runs[r].cancelRequested {
      assert s.store.runs[r := s.store.runs[r].(cancelRequested := true)] == s.store.runs;
    }
  }

  /**
   A run that was newly created is to be executed; a crash ends every coroutine and no row; a restart lets work
   in.
   */
  lemma HostingIsExact(s: S.State, q: Request, c: Context, m: Id)
    ensures s.up ==>
              var (r, store) := Accept(s.store, q, c, m); var t := S.Step(s, S.Submit(q, c, m));
              t == s.(store := store,
                      execs := if r.Ok? && r.value.created then s.execs[q.run := S.Admitted] else s.execs)
    ensures var t := S.Step(s, S.Crash);
      && t.store == s.store && t.starts == s.starts && !t.up && t.cancelling == {} && t.execs.Keys == s.execs.Keys
      && forall r :: r in t.execs ==> t.execs[r].Ended?
    ensures !s.up ==> S.Step(s, S.Restart) == s.(up := true)
    ensures forall r :: r in s.execs && !s.execs[r].Ended? ==> S.Step(s, S.Die(r)) == s.(execs := s.execs[r := S.Ended])
    ensures forall r :: r in s.execs && s.execs[r].Admitted? ==>
              S.Step(s, S.Spawn(r)) == s.(execs := s.execs[r := S.Spawned])
  {
    hide Accept;
  }

  /** Reservations, recovery and the other transactions go to the store and leave coroutines alone. */
  lemma TransactionsAreCommitted(s: S.State, op: Op, run: Id, tenant: string, session: Id)
    ensures s.up ==>
              S.Step(s, S.Reserve(run, tenant, session)) == s.(store := ReserveCancel(s.store, run, tenant, session).1)
    ensures S.Enabled(s, S.Recovery(op)) ==> S.Step(s, S.Recovery(op)) == s.(store := Step(s.store, op))
    ensures S.Enabled(s, S.Other(op)) ==> S.Step(s, S.Other(op)) == s.(store := Step(s.store, op))
  {
    hide ReserveCancel, Step;
  }
}
