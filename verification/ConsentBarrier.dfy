/**
 The admission barrier between consent and provider dispatch, as the segments of its coroutines between
 two suspension points. Any number of calls, resource reads, cancellations, consent changes (also by
 other processes), disables and closes of the host run interleaved.
 */
module ConsentProtocol {
  import opened Prelude

  datatype Lock = Unlocked | Admitting(call: nat) | Sweeping(sweep: nat)

  /** A provider task; `epoch` counts the consent grants before its dispatch. */
  datatype Task = Task(done: bool, drains: bool, cancelRequested: bool, epoch: nat)

  /** The coroutine that waits for a dispatched task and then forgets it. */
  datatype Waiter =
    Waiter(callId: string, task: nat, reading: bool, drains: bool, deadlineOk: bool, interrupts: nat)

  datatype Phase = Waiting | Draining | Unwinding | Drained | Returned

  /** A disable, or a close of the host, which crosses the barrier in the same way but leaves consent alone. */
  datatype Sweep = Sweep(closes: bool, epoch: nat, phase: Phase, awaited: set<nat>)

  datatype State = State(
    consent: bool, grants: nat, lock: Lock, active: map<string, nat>, uncancellable: set<string>,
    tasks: map<nat, Task>, waiters: map<nat, Waiter>, sweeps: map<nat, Sweep>, closing: bool)

  const Init := State(false, 0, Unlocked, map[], {}, map[], map[], map[], false)

  datatype Event =
    | Grant
    | Revoke
    | Begin(call: nat)
    | Refuse(call: nat)
    | Launch(call: nat, callId: string, task: nat, drains: bool, deadlineOk: bool)
    | Read(call: nat, callId: string, task: nat)
    | Finish(task: nat)
    | Interrupt(call: nat)
    | Leave(call: nat)
    | Cancel(callId: string)
    | Write(sweep: nat)
    | Shut(sweep: nat)
    | Take(sweep: nat)
    | Drain(sweep: nat)
    | Return(sweep: nat)
    | Abort(sweep: nat)
    | Unwind(sweep: nat)

  /**
   A waiter leaves once its task is done, when its deadline was refused after dispatch, or when an interrupted wait is
   interrupted again.
   */
  predicate MayLeave(s: State, w: Waiter) {
    (w.task in s.tasks && s.tasks[w.task].done) || !w.deadlineOk || w.interrupts >= 2
  }

  /** Everything a sweep gathered is done. */
  predicate Over(s: State, d: nat)
    requires d in s.sweeps
  {
    forall t :: t in s.sweeps[d].awaited ==> t in s.tasks && s.tasks[t].done
  }

  predicate Enabled(s: State, e: Event) {
    match e
    case Grant => true
    case Revoke => true
    case Begin(_) => s.lock.Unlocked? && s.consent
    case Refuse(c) => s.lock == Admitting(c)
    case Launch(c, _, t, _, _) => s.lock == Admitting(c) && s.consent && t !in s.tasks && c !in s.waiters
    case Read(c, id, t) =>
      s.lock.Unlocked? && !s.closing && s.consent && id !in s.active && |s.active| < 64 && t !in s.tasks
      && c !in s.waiters
    case Finish(t) => t in s.tasks
    case Interrupt(c) => c in s.waiters
    case Leave(c) => c in s.waiters && MayLeave(s, s.waiters[c])
    case Cancel(_) => s.lock.Unlocked?
    case Write(d) => d !in s.sweeps
    case Shut(d) => d !in s.sweeps
    case Take(d) => s.lock.Unlocked? && d in s.sweeps && s.sweeps[d].phase.Waiting?
    case Drain(d) => d in s.sweeps && s.sweeps[d].phase.Draining? && Over(s, d)
    case Return(d) => d in s.sweeps && s.sweeps[d].phase.Drained?
    case Abort(d) => d in s.sweeps && !s.sweeps[d].phase.Unwinding? && !s.sweeps[d].phase.Returned?
    case Unwind(d) => d in s.sweeps && s.sweeps[d].phase.Unwinding? && Over(s, d)
  }

  /** Ask the named tasks to cancel; a finished task ignores it. */
  function Asked(tasks: map<nat, Task>, which: set<nat>): map<nat, Task> {
    map t | t in tasks :: if t in which && !tasks[t].done then tasks[t].(cancelRequested := true) else tasks[t]
  }

  function Cancellable(s: State): set<nat> {
    set id | id in s.active && id !in s.uncancellable :: s.active[id]
  }

  function Dispatched(s: State, c: nat, w: Waiter): State {
    s.(lock := Unlocked,
       active := s.active[w.callId := w.task],
       uncancellable := if w.drains then s.uncancellable + {w.callId} else s.uncancellable,
       tasks := s.tasks[w.task := Task(false, w.drains, false, s.grants)],
       waiters := s.waiters[c := w])
  }

  /** Whatever stands under the call id is removed; a read leaves the mark against cancellation alone. */
  function Forgotten(s: State, c: nat): State
    requires c in s.waiters
  {
    var w := s.waiters[c];
    s.(active := s.active - {w.callId},
       uncancellable := if w.reading then s.uncancellable else s.uncancellable - {w.callId},
       waiters := s.waiters - {c})
  }

  /** The sweep ends with the barrier free, before it returned. */
  function Ended(s: State, d: nat): State {
    s.(lock := if s.lock == Sweeping(d) then Unlocked else s.lock, sweeps := s.sweeps - {d})
  }

  function Step(s: State, e: Event): State
    requires Enabled(s, e)
  {
    match e
    case Grant => s.(consent := true, grants := s.grants + 1)
    case Revoke => s.(consent := false)
    case Begin(c) => s.(lock := Admitting(c))
    case Refuse(_) => s.(lock := Unlocked)
    case Launch(c, id, t, drains, deadlineOk) => Dispatched(s, c, Waiter(id, t, false, drains, deadlineOk, 0))
    case Read(c, id, t) => Dispatched(s, c, Waiter(id, t, true, false, true, 0))
    case Finish(t) => s.(tasks := s.tasks[t := s.tasks[t].(done := true)])
    case Interrupt(c) =>
      var w := s.waiters[c];
      s.(waiters := s.waiters[c := w.(interrupts := w.interrupts + 1)],
         tasks := if w.drains then s.tasks else Asked(s.tasks, {w.task}))
    case Leave(c) => Forgotten(s, c)
    case Cancel(id) =>
      if id in s.active && id !in s.uncancellable then s.(tasks := Asked(s.tasks, {s.active[id]})) else s
    case Write(d) => s.(consent := false, sweeps := s.sweeps[d := Sweep(false, s.grants, Waiting, {})])
    case Shut(d) => s.(closing := true, sweeps := s.sweeps[d := Sweep(true, s.grants, Waiting, {})])
    case Take(d) =>
      s.(lock := Sweeping(d), tasks := Asked(s.tasks, Cancellable(s)),
         sweeps := s.sweeps[d := s.sweeps[d].(phase := Draining, awaited := s.active.Values)])
    case Drain(d) => s.(sweeps := s.sweeps[d := s.sweeps[d].(phase := Drained)])
    case Return(d) =>
      s.(lock := if s.lock == Sweeping(d) then Unlocked else s.lock,
         sweeps := s.sweeps[d := s.sweeps[d].(phase := Returned)])
    case Abort(d) =>
      if s.sweeps[d].phase.Draining? then
        s.(tasks := Asked(s.tasks, s.sweeps[d].awaited), sweeps := s.sweeps[d := s.sweeps[d].(phase := Unwinding)])
      else Ended(s, d)
    case Unwind(d) => Ended(s, d)
  }

  predicate Legal(s: State, es: seq<Event>)
    decreases |es|
  {
    es == [] || (Enabled(s, es[0]) && Legal(Step(s, es[0]), es[1..]))
  }

  function Run(s: State, es: seq<Event>): State
    requires Legal(s, es)
    decreases |es|
  {
    if es == [] then s else Run(Step(s, es[0]), es[1..])
  }

  // ------------------------------------------------------------ discipline

  /** What callers may be held to: deadlines that are valid, call ids not in use, no second interruption of a wait. */
  datatype Discipline = Discipline(deadlines: bool, ids: bool, interrupts: bool)

  predicate Allows(p: Discipline, s: State, e: Event) {
    && (p.deadlines && e.Launch? ==> e.deadlineOk)
    && (p.ids && e.Launch? ==> e.callId !in s.active)
    && (p.interrupts && e.Interrupt? && e.call in s.waiters ==> s.waiters[e.call].interrupts == 0)
  }

  predicate Obeys(p: Discipline, s: State, es: seq<Event>)
    requires Legal(s, es)
    decreases |es|
  {
    es == [] || (Allows(p, s, es[0]) && Obeys(p, Step(s, es[0]), es[1..]))
  }

  /** No unfinished task was dispatched before the disable or under the consent it took away. */
  predicate Barrier(s: State, d: nat)
    requires d in s.sweeps
  {
    forall t :: t in s.tasks && !s.tasks[t].done ==> s.tasks[t].epoch > s.sweeps[d].epoch
  }

  predicate BarriersHold(s: State) {
    forall d :: d in s.sweeps && !s.sweeps[d].closes && s.sweeps[d].phase.Returned? ==> Barrier(s, d)
  }

  // ------------------------------------------------------------- invariant

  const Strict := Discipline(true, true, true)

  /** Every unfinished task is listed under the call id of a waiter that is still there. */
  predicate Tracked(s: State) {
    && (forall c :: c in s.waiters ==>
          var w := s.waiters[c];
          w.deadlineOk && w.interrupts <= 1 && w.callId in s.active && s.active[w.callId] == w.task
            && w.task in s.tasks)
    && (forall c, c' :: c in s.waiters && c' in s.waiters && s.waiters[c].callId == s.waiters[c'].callId ==> c == c')
    && (forall t :: t in s.tasks && !s.tasks[t].done ==> t in s.active.Values)
  }

  predicate Epochs(s: State) {
    && (forall t :: t in s.tasks ==> s.tasks[t].epoch <= s.grants)
    && (forall d :: d in s.sweeps && !s.sweeps[d].closes ==>
        s.sweeps[d].epoch <= s.grants && (s.sweeps[d].epoch == s.grants ==> !s.consent))
  }

  predicate Drains(s: State) {
    && (forall d :: d in s.sweeps && s.sweeps[d].phase.Draining? ==>
          s.lock == Sweeping(d) && forall t :: t in s.tasks && !s.tasks[t].done ==> t in s.sweeps[d].awaited)
    && (forall d :: d in s.sweeps && !s.sweeps[d].closes && s.sweeps[d].phase.Drained? ==> Barrier(s, d))
  }

  predicate Inv(s: State) {
    Tracked(s) && Epochs(s) && Drains(s) && BarriersHold(s)
  }

  lemma StepTracks(s: State, e: Event)
    requires Tracked(s) && Enabled(s, e) && Allows(Strict, s, e)
    ensures Tracked(Step(s, e))
  {
    hide Tracked, Step, Cancellable, MayLeave, Over;
    match e
    case Launch(c, id, task, drains, deadlineOk) => LaunchTracks(s, e);
    case Read(c, id, task) => LaunchTracks(s, e);
    case Leave(c) => LeaveTracks(s, c);
    case Interrupt(c) => InterruptTracks(s, c);
    case _ =>
      OnlyTasksMove(s, e);
      SameTracks(s, Step(s, e));
  }

  lemma LaunchTracks(s: State, e: Event)
    requires Tracked(s) && Enabled(s, e) && Allows(Strict, s, e) && (e.Launch? || e.Read?)
    ensures Tracked(Step(s, e))
  {
    hide Tracked, Dispatched;
    if e.Launch? {
      DispatchTracks(s, e.call, Waiter(e.callId, e.task, false, e.drains, e.deadlineOk, 0));
    } else {
      DispatchTracks(s, e.call, Waiter(e.callId, e.task, true, false, true, 0));
    }
  }

  lemma OnlyTasksMove(s: State, e: Event)
    requires Enabled(s, e) && !e.Launch? && !e.Read? && !e.Leave? && !e.Interrupt?
    ensures var t := Step(s, e);
      && t.active == s.active && t.waiters == s.waiters && t.tasks.Keys == s.tasks.Keys
      && forall k :: k in s.tasks && s.tasks[k].done ==> t.tasks[k].done
  {
    AskedKeeps(s.tasks);
    hide Asked, Cancellable, MayLeave, Over;
  }

  /** Tasks that only end or are asked to cancel. */
  lemma SameTracks(s: State, t: State)
    requires Tracked(s) && t.active == s.active && t.waiters == s.waiters && t.tasks.Keys == s.tasks.Keys
    requires forall k :: k in s.tasks && s.tasks[k].done ==> t.tasks[k].done
    ensures Tracked(t)
  {
  }

  lemma AskedKeeps(tasks: map<nat, Task>)
    ensures forall which: set<nat> :: Asked(tasks, which).Keys == tasks.Keys
    ensures forall which: set<nat>, t :: t in tasks ==>
              Asked(tasks, which)[t].epoch == tasks[t].epoch && Asked(tasks, which)[t].done == tasks[t].done
  {
  }

  lemma WaitTracks(s: State, c: nat)
    requires Tracked(s) && c in s.waiters && s.waiters[c].interrupts == 0
    ensures Tracked(s.(waiters := s.waiters[c := s.waiters[c].(interrupts := 1)]))
  {
  }

  lemma InterruptTracks(s: State, c: nat)
    requires Tracked(s) && Enabled(s, Interrupt(c)) && Allows(Strict, s, Interrupt(c))
    ensures Tracked(Step(s, Interrupt(c)))
  {
    AskedKeeps(s.tasks);
    hide Asked, Tracked, MayLeave, Over;
    WaitTracks(s, c);
    SameTracks(s.(waiters := s.waiters[c := s.waiters[c].(interrupts := 1)]), Step(s, Interrupt(c)));
  }

  lemma DispatchTracks(s: State, c: nat, w: Waiter)
    requires Tracked(s) && w.task !in s.tasks && c !in s.waiters && w.callId !in s.active && w.deadlineOk
    requires w.interrupts == 0
    ensures Tracked(Dispatched(s, c, w))
  {
    var t := Dispatched(s, c, w);
    forall k | k in t.tasks && !t.tasks[k].done ensures k in t.active.Values {
      if k == w.task {
        assert t.active[w.callId] == k;
      } else {
        var id :| id in s.active && s.active[id] == k;
        assert t.active[id] == k;
      }
    }
  }

  lemma LeaveTracks(s: State, c: nat)
    requires Tracked(s) && Enabled(s, Leave(c))
    ensures Tracked(Step(s, Leave(c)))
  {
    var t := Step(s, Leave(c));
    forall k | k in t.tasks && !t.tasks[k].done ensures k in t.active.Values {
      var id :| id in s.active && s.active[id] == k;
      assert id != s.waiters[c].callId;
      assert t.active[id] == k;
    }
  }

  lemma SweepKeepsEpochs(s: State, e: Event)
    requires Epochs(s) && Enabled(s, e)
    requires e.Take? || e.Drain? || e.Return? || e.Abort? || e.Unwind?
    ensures Epochs(Step(s, e))
  {
    AskedKeeps(s.tasks);
    hide Asked, Cancellable, Over;
  }

  lemma StepKeepsEpochs(s: State, e: Event)
    requires Epochs(s) && Enabled(s, e)
    ensures Epochs(Step(s, e))
  {
    if e.Take? || e.Drain? || e.Return? || e.Abort? || e.Unwind? {
      SweepKeepsEpochs(s, e);
    } else {
      AskedKeeps(s.tasks);
    }
    hide Asked, Cancellable, MayLeave, Over;
  }

  /** No task starts or comes back to life, and the sweeps and the lock they hold stay. */
  predicate Quiet(s: State, t: State) {
    && t.sweeps == s.sweeps && (s.lock.Sweeping? ==> t.lock == s.lock)
    && (forall k :: k in t.tasks ==>
        k in s.tasks && t.tasks[k].epoch == s.tasks[k].epoch && (s.tasks[k].done ==> t.tasks[k].done))
  }

  lemma QuietKeeps(s: State, t: State)
    requires Drains(s) && BarriersHold(s) && Quiet(s, t)
    ensures Drains(t) && BarriersHold(t)
  {
  }

  lemma DispatchKeepsBarriers(s: State, c: nat, w: Waiter)
    requires Drains(s) && BarriersHold(s) && Epochs(s) && s.consent && !s.lock.Sweeping? && w.task !in s.tasks
    ensures Drains(Dispatched(s, c, w)) && BarriersHold(Dispatched(s, c, w))
  {
  }

  lemma TakeKeepsBarriers(s: State, d: nat)
    requires Inv(s) && Enabled(s, Take(d))
    ensures Drains(Step(s, Take(d))) && BarriersHold(Step(s, Take(d)))
  {
    hide MayLeave, Epochs;
  }

  lemma DrainKeepsBarriers(s: State, d: nat)
    requires Inv(s) && Enabled(s, Drain(d))
    ensures Drains(Step(s, Drain(d))) && BarriersHold(Step(s, Drain(d)))
  {
    hide MayLeave, Tracked;
  }

  lemma BeginAndReturnKeepBarriers(s: State, e: Event)
    requires Inv(s) && Enabled(s, e) && (e.Write? || e.Shut? || e.Return?)
    ensures Drains(Step(s, e)) && BarriersHold(Step(s, e))
  {
    hide MayLeave, Tracked, Epochs;
  }

  lemma EndedKeepsBarriers(s: State, d: nat)
    requires Drains(s) && BarriersHold(s)
    ensures Drains(Ended(s, d)) && BarriersHold(Ended(s, d))
  {
  }

  lemma UnwindingKeepsBarriers(s: State, d: nat)
    requires Drains(s) && BarriersHold(s) && d in s.sweeps
    ensures var t := s.(tasks := Asked(s.tasks, s.sweeps[d].awaited),
                        sweeps := s.sweeps[d := s.sweeps[d].(phase := Unwinding)]);
      Drains(t) && BarriersHold(t)
  {
    AskedKeeps(s.tasks);
    hide Asked;
  }

  lemma AbortKeepsBarriers(s: State, e: Event)
    requires Inv(s) && Enabled(s, e) && (e.Abort? || e.Unwind?)
    ensures Drains(Step(s, e)) && BarriersHold(Step(s, e))
  {
    hide Epochs, Tracked, Drains, BarriersHold, Asked, Over, Ended;
    if e.Abort? && s.sweeps[e.sweep].phase.Draining? {
      UnwindingKeepsBarriers(s, e.sweep);
    } else {
      EndedKeepsBarriers(s, e.sweep);
    }
  }

  lemma StepKeepsDrains(s: State, e: Event)
    requires Inv(s) && Enabled(s, e)
    ensures Drains(Step(s, e)) && BarriersHold(Step(s, e))
  {
    hide Drains, BarriersHold, Tracked, Epochs;
    match e
    case Launch(c, id, task, drains, deadlineOk) =>
      DispatchKeepsBarriers(s, c, Waiter(id, task, false, drains, deadlineOk, 0));
    case Read(c, id, task) => DispatchKeepsBarriers(s, c, Waiter(id, task, true, false, true, 0));
    case Take(d) => TakeKeepsBarriers(s, d);
    case Drain(d) => DrainKeepsBarriers(s, d);
    case Write(_) => BeginAndReturnKeepBarriers(s, e);
    case Shut(_) => BeginAndReturnKeepBarriers(s, e);
    case Return(_) => BeginAndReturnKeepBarriers(s, e);
    case Abort(_) => AbortKeepsBarriers(s, e);
    case Unwind(_) => AbortKeepsBarriers(s, e);
    case _ => QuietKeeps(s, Step(s, e));
  }

  lemma StepKeeps(s: State, e: Event)
    requires Inv(s) && Enabled(s, e) && Allows(Strict, s, e)
    ensures Inv(Step(s, e))
  {
    hide Tracked, Drains, BarriersHold, Epochs, Step, Enabled, Allows;
    StepTracks(s, e);
    StepKeepsEpochs(s, e);
    StepKeepsDrains(s, e);
  }

  lemma {:induction false} RunKeeps(s: State, es: seq<Event>)
    requires Inv(s) && Legal(s, es) && Obeys(Strict, s, es)
    ensures Inv(Run(s, es))
    decreases |es|
  {
    hide Inv, Enabled, Allows;
    if es != [] {
      StepKeeps(s, es[0]);
      RunKeeps(Step(s, es[0]), es[1..]);
    }
  }

  // ----------------------------------------------------------- main results

  lemma DisciplinedBarriersHold(es: seq<Event>)
    requires Legal(Init, es) && Obeys(Strict, Init, es)
    ensures BarriersHold(Run(Init, es))
  {
    RunKeeps(Init, es);
  }

  lemma {:induction false} RunAppends(p: Discipline, s: State, es: seq<Event>, e: Event)
    requires Legal(s, es) && Obeys(p, s, es) && Enabled(Run(s, es), e) && Allows(p, Run(s, es), e)
    ensures Legal(s, es + [e]) && Obeys(p, s, es + [e]) && Run(s, es + [e]) == Step(Run(s, es), e)
    decreases |es|
  {
    hide Enabled, Allows, Step;
    if es != [] {
      assert (es + [e])[1..] == es[1..] + [e];
      RunAppends(p, Step(s, es[0]), es[1..], e);
    } else {
      assert es + [e] == [e] && [e][1..] == [];
    }
  }

  /** One more event at the end of a run from the start. */
  lemma Then(p: Discipline, es: seq<Event>, s: State, e: Event) returns (longer: seq<Event>, t: State)
    requires Legal(Init, es) && Obeys(p, Init, es) && Run(Init, es) == s && Enabled(s, e) && Allows(p, s, e)
    ensures Legal(Init, longer) && Obeys(p, Init, longer) && Run(Init, longer) == t && t == Step(s, e)
    ensures longer == es + [e]
  {
    RunAppends(p, Init, es, e);
    longer, t := es + [e], Step(s, e);
  }

  lemma EmptyRun(p: Discipline)
    ensures Legal(Init, []) && Obeys(p, Init, []) && Run(Init, []) == Init
  {
  }

  /** The first task is running with nobody tracking it, and nothing else runs. */
  predicate Lost(s: State) {
    && s.lock.Unlocked? && s.sweeps == map[] && s.grants == 1
    && 0 in s.tasks && !s.tasks[0].done && s.tasks[0].epoch == 1
    && 0 !in s.active.Values && forall t :: t in s.active.Values ==> t in s.tasks && s.tasks[t].done
  }

  /** Consent is granted and a call is being admitted. */
  lemma Start(p: Discipline) returns (es: seq<Event>, s: State)
    ensures Legal(Init, es) && Obeys(p, Init, es) && Run(Init, es) == s
    ensures s == Init.(consent := true, grants := 1, lock := Admitting(0)) && es == [Grant, Begin(0)]
  {
    hide Legal, Run, Obeys;
    EmptyRun(p);
    es, s := Then(p, [], Init, Grant);
    es, s := Then(p, es, s, Begin(0));
  }

  lemma ReuseLoses(p: Discipline) returns (es: seq<Event>, s: State)
    requires !p.ids
    ensures Legal(Init, es) && Obeys(p, Init, es) && Run(Init, es) == s && Lost(s)
  {
    hide Legal, Run, Obeys;
    es, s := Start(p);
    es, s := Then(p, es, s, Launch(0, "x", 0, true, true));
    es, s := Then(p, es, s, Begin(1));
    es, s := Then(p, es, s, Launch(1, "x", 1, true, true));
    assert s.active == map["x" := 1];
    es, s := Then(p, es, s, Finish(1));
  }

  lemma DeadlineLoses(p: Discipline) returns (es: seq<Event>, s: State)
    requires !p.deadlines
    ensures Legal(Init, es) && Obeys(p, Init, es) && Run(Init, es) == s && Lost(s)
  {
    hide Legal, Run, Obeys;
    es, s := Start(p);
    es, s := Then(p, es, s, Launch(0, "x", 0, true, false));
    es, s := Then(p, es, s, Leave(0));
  }

  lemma InterruptsLose(p: Discipline) returns (es: seq<Event>, s: State)
    requires !p.interrupts
    ensures Legal(Init, es) && Obeys(p, Init, es) && Run(Init, es) == s && Lost(s)
  {
    hide Legal, Run, Obeys;
    es, s := Start(p);
    es, s := Then(p, es, s, Launch(0, "x", 0, true, true));
    es, s := Then(p, es, s, Interrupt(0));
    es, s := Then(p, es, s, Interrupt(0));
    es, s := Then(p, es, s, Leave(0));
  }

  /** Without any one of the three, a disable can return while an earlier mutation is still running. */
  lemma UndisciplinedBarrierBreaks(p: Discipline) returns (es: seq<Event>)
    requires p != Strict
    ensures Legal(Init, es) && Obeys(p, Init, es) && !BarriersHold(Run(Init, es))
  {
    hide Legal, Run, Obeys;
    var s: State;
    if !p.ids {
      es, s := ReuseLoses(p);
    } else if !p.deadlines {
      es, s := DeadlineLoses(p);
    } else {
      es, s := InterruptsLose(p);
    }
    es := DisableReturns(p, es, s);
  }

  lemma DisableReturns(p: Discipline, before: seq<Event>, lost: State) returns (es: seq<Event>)
    requires Legal(Init, before) && Obeys(p, Init, before) && Run(Init, before) == lost && Lost(lost)
    ensures Legal(Init, es) && Obeys(p, Init, es) && !BarriersHold(Run(Init, es))
  {
    hide Legal, Run, Obeys;
    var s: State;
    es, s := Then(p, before, lost, Write(0));
    es, s := Then(p, es, s, Take(0));
    assert !s.tasks[0].done && s.tasks[0].epoch == 1 && s.sweeps[0].epoch == 1;
    es, s := Then(p, es, s, Drain(0));
    es, s := Then(p, es, s, Return(0));
    assert !Barrier(s, 0);
  }

  /**
   Sweeping is a barrier over every interleaving, and stays one until consent is granted again, exactly
   when deadlines are valid, call ids are not reused while active, and no wait is interrupted twice.
   */
  lemma BarrierIsExact(p: Discipline)
    ensures p == Strict <==> forall es :: Legal(Init, es) && Obeys(p, Init, es) ==> BarriersHold(Run(Init, es))
  {
    if p == Strict {
      forall es | Legal(Init, es) && Obeys(p, Init, es) ensures BarriersHold(Run(Init, es)) {
        DisciplinedBarriersHold(es);
      }
    } else {
      var es := UndisciplinedBarrierBreaks(p);
    }
  }

  // -------------------------------------------------- draining mutations

  /** No disable and no close of the host is aborted while a draining mutation it awaits is still running. */
  predicate Patient(s: State, e: Event) {
    e.Abort? && e.sweep in s.sweeps && s.sweeps[e.sweep].phase.Draining? ==>
      forall t :: t in s.sweeps[e.sweep].awaited && t in s.tasks && s.tasks[t].drains ==> s.tasks[t].done
  }

  predicate AlwaysPatient(s: State, es: seq<Event>)
    requires Legal(s, es)
    decreases |es|
  {
    es == [] || (Patient(s, es[0]) && AlwaysPatient(Step(s, es[0]), es[1..]))
  }

  /** No mutation that must drain was asked to cancel. */
  predicate MutationsUnasked(s: State) {
    forall t :: t in s.tasks && s.tasks[t].drains ==> !s.tasks[t].cancelRequested
  }

  /** A mutation that must drain cannot be found under a call id that may be cancelled. */
  predicate Spared(s: State) {
    && (forall c :: c in s.waiters ==>
          s.waiters[c].task in s.tasks && s.tasks[s.waiters[c].task].drains == s.waiters[c].drains)
    && (forall id :: id in s.active ==>
          s.active[id] in s.tasks && (s.tasks[s.active[id]].drains ==> id in s.uncancellable))
    && MutationsUnasked(s)
  }

  lemma DispatchSpares(s: State, c: nat, w: Waiter)
    requires Spared(s) && w.task !in s.tasks
    ensures Spared(Dispatched(s, c, w))
  {
  }

  lemma AskingSpares(s: State, which: set<nat>)
    requires Spared(s)
    requires forall t :: t in which && t in s.tasks && s.tasks[t].drains ==> s.tasks[t].done
    ensures Spared(s.(tasks := Asked(s.tasks, which)))
  {
  }

  lemma LeaveSpares(s: State, c: nat)
    requires Spared(s) && c in s.waiters
    ensures Spared(Forgotten(s, c))
  {
  }

  lemma CancellableMayBeAsked(s: State)
    requires Spared(s)
    ensures forall t :: t in Cancellable(s) ==> t in s.tasks && !s.tasks[t].drains
  {
  }

  lemma InterruptSpares(s: State, c: nat)
    requires Spared(s) && c in s.waiters
    ensures Spared(Step(s, Interrupt(c)))
  {
    var w := s.waiters[c];
    if !w.drains {
      AskingSpares(s, {w.task});
    }
  }

  lemma LookupsSpare(s: State, e: Event)
    requires Spared(s) && Enabled(s, e) && (e.Cancel? || e.Take?)
    ensures Spared(Step(s, e))
  {
    CancellableMayBeAsked(s);
    if e.Take? {
      AskingSpares(s, Cancellable(s));
    } else if e.callId in s.active && e.callId !in s.uncancellable {
      assert s.active[e.callId] in Cancellable(s);
      AskingSpares(s, {s.active[e.callId]});
    }
    hide Asked, Cancellable;
  }

  lemma AbortSpares(s: State, d: nat)
    requires Spared(s) && Enabled(s, Abort(d)) && Patient(s, Abort(d))
    ensures Spared(Step(s, Abort(d)))
  {
    if s.sweeps[d].phase.Draining? {
      AskingSpares(s, s.sweeps[d].awaited);
    }
    hide Asked;
  }

  lemma QuietlySpares(s: State, e: Event)
    requires Spared(s) && Enabled(s, e)
    requires !e.Launch? && !e.Read? && !e.Leave? && !e.Interrupt? && !e.Cancel? && !e.Take? && !e.Abort?
    ensures Spared(Step(s, e))
  {
  }

  lemma StepSpares(s: State, e: Event)
    requires Spared(s) && Enabled(s, e) && Patient(s, e)
    ensures Spared(Step(s, e))
  {
    hide Spared, MayLeave, Asked, Cancellable, Dispatched, Forgotten, Patient, Over;
    if e.Launch? {
      DispatchSpares(s, e.call, Waiter(e.callId, e.task, false, e.drains, e.deadlineOk, 0));
    } else if e.Read? {
      DispatchSpares(s, e.call, Waiter(e.callId, e.task, true, false, true, 0));
    } else if e.Leave? {
      LeaveSpares(s, e.call);
    } else if e.Interrupt? {
      InterruptSpares(s, e.call);
    } else if e.Cancel? || e.Take? {
      LookupsSpare(s, e);
    } else if e.Abort? {
      AbortSpares(s, e.sweep);
    } else {
      QuietlySpares(s, e);
    }
  }

  lemma {:induction false} RunSpares(s: State, es: seq<Event>)
    requires Spared(s) && Legal(s, es) && AlwaysPatient(s, es)
    ensures Spared(Run(s, es))
    decreases |es|
  {
    hide Spared, Enabled, Patient, Step;
    if es != [] {
      StepSpares(s, es[0]);
      RunSpares(Step(s, es[0]), es[1..]);
    }
  }

  /** Neither cancellation, timeout, disable nor close asks a draining mutation to cancel, call ids reused or not. */
  lemma PatientRunsSpareMutations(es: seq<Event>)
    requires Legal(Init, es) && AlwaysPatient(Init, es)
    ensures MutationsUnasked(Run(Init, es))
  {
    RunSpares(Init, es);
  }

  /** A disable or a close waits for a draining mutation. */
  lemma SweepGathers(sweep: Event) returns (es: seq<Event>, s: State)
    requires sweep == Write(0) || sweep == Shut(0)
    ensures Legal(Init, es) && Obeys(Strict, Init, es) && Run(Init, es) == s
    ensures es == [Grant, Begin(0), Launch(0, "x", 0, true, true), sweep, Take(0)]
    ensures 0 in s.sweeps && s.sweeps[0].phase.Draining? && 0 in s.sweeps[0].awaited
    ensures 0 in s.tasks && !s.tasks[0].done && s.tasks[0].drains
  {
    hide Legal, Run, Obeys;
    es, s := Start(Strict);
    es, s := Then(Strict, es, s, Launch(0, "x", 0, true, true));
    assert s.active == map["x" := 0] && s.uncancellable == {"x"};
    es, s := Then(Strict, es, s, sweep);
    assert s.active["x"] == 0;
    es, s := Then(Strict, es, s, Take(0));
  }

  /**
   Cancelling a disable, or a close of the host, cancels what it awaits: the draining mutation too, however
   disciplined the callers.
   */
  lemma AbortedSweepCancels(sweep: Event) returns (es: seq<Event>)
    requires sweep == Write(0) || sweep == Shut(0)
    ensures Legal(Init, es) && Obeys(Strict, Init, es) && !MutationsUnasked(Run(Init, es))
    ensures es == [Grant, Begin(0), Launch(0, "x", 0, true, true), sweep, Take(0), Abort(0)]
  {
    hide Legal, Run, Obeys;
    var s: State;
    es, s := SweepGathers(sweep);
    es, s := Then(Strict, es, s, Abort(0));
    assert s.tasks[0].drains && s.tasks[0].cancelRequested;
  }

  /** A task once asked to cancel stays asked. */
  lemma AskedStays(s: State, e: Event, t: nat)
    requires Enabled(s, e) && t in s.tasks && s.tasks[t].cancelRequested
    ensures var u := Step(s, e); t in u.tasks && u.tasks[t].cancelRequested && u.tasks[t].drains == s.tasks[t].drains
  {
    AskedOnlyAdds(s.tasks, t);
    hide Asked, Cancellable, MayLeave;
  }

  lemma AskedOnlyAdds(tasks: map<nat, Task>, t: nat)
    requires t in tasks
    ensures forall which: set<nat> ::
              t in Asked(tasks, which) && Asked(tasks, which)[t].drains == tasks[t].drains
              && (tasks[t].cancelRequested ==> Asked(tasks, which)[t].cancelRequested)
  {
  }

  lemma {:induction false} AskedForever(s: State, es: seq<Event>, t: nat)
    requires Legal(s, es) && t in s.tasks && s.tasks[t].cancelRequested && s.tasks[t].drains
    ensures !MutationsUnasked(Run(s, es))
    decreases |es|
  {
    hide Step, Enabled;
    if es != [] {
      AskedStays(s, es[0], t);
      AskedForever(Step(s, es[0]), es[1..], t);
    }
  }

  /** Aborting a disable or a close over a running draining mutation asks that mutation. */
  lemma ImpatienceAsks(s: State, e: Event) returns (t: nat)
    requires Enabled(s, e) && !Patient(s, e)
    ensures var u := Step(s, e); t in u.tasks && u.tasks[t].cancelRequested && u.tasks[t].drains
  {
    t :| t in s.sweeps[e.sweep].awaited && t in s.tasks && s.tasks[t].drains && !s.tasks[t].done;
  }

  lemma {:induction false} ImpatienceShows(s: State, es: seq<Event>)
    requires Legal(s, es) && !AlwaysPatient(s, es)
    ensures !MutationsUnasked(Run(s, es))
    decreases |es|
  {
    hide Step, Enabled, Patient, MutationsUnasked;
    if Patient(s, es[0]) {
      ImpatienceShows(Step(s, es[0]), es[1..]);
    } else {
      var t := ImpatienceAsks(s, es[0]);
      AskedForever(Step(s, es[0]), es[1..], t);
    }
  }

  /** A run asks no draining mutation to cancel if and only if it aborts no disable or close over a running one. */
  lemma SparingIsExact(es: seq<Event>)
    requires Legal(Init, es)
    ensures MutationsUnasked(Run(Init, es)) <==> AlwaysPatient(Init, es)
  {
    if AlwaysPatient(Init, es) {
      PatientRunsSpareMutations(es);
    } else {
      ImpatienceShows(Init, es);
    }
  }
}

/** The host object: each method is one segment of `call`, `read_resource`, `cancel`, `set_consent` or `close`. */
module CapabilityHost {
  import opened Prelude
  import opened ConsentProtocol

  class LocalHost {
    var consent: bool
    var grants: nat
    var lock: Lock
    var active: map<string, nat>
    var uncancellable: set<string>
    var tasks: map<nat, Task>
    var waiters: map<nat, Waiter>
    var sweeps: map<nat, Sweep>
    var closing: bool

    constructor ()
      ensures View() == Init
    {
      consent, grants, lock := false, 0, Unlocked;
      active, uncancellable, tasks, waiters, sweeps := map[], {}, map[], map[], map[];
      closing := false;
    }

    function View(): State
      reads this
    {
      State(consent, grants, lock, active, uncancellable, tasks, waiters, sweeps, closing)
    }

    /** The first segment of an admission, after the lock was free. */
    method BeginAdmission(call: nat) returns (admitted: bool)
      requires lock.Unlocked?
      modifies this
      ensures admitted == old(consent)
      ensures View() == if admitted then Step(old(View()), Begin(call)) else old(View())
    {
      if !consent {
        return false;
      }
      lock := Admitting(call);
      return true;
    }

    /** Consent is read again in the very segment that creates the provider task. */
    method Dispatch(call: nat, callId: string, task: nat, drains: bool, deadlineOk: bool) returns (dispatched: bool)
      requires lock == Admitting(call) && task !in tasks && call !in waiters
      modifies this
      ensures dispatched == old(consent)
      ensures View()
              == Step(old(View()), if dispatched then Launch(call, callId, task, drains, deadlineOk) else Refuse(call))
    {
      if !consent {
        lock := Unlocked;
        return false;
      }
      Track(call, Waiter(callId, task, false, drains, deadlineOk, 0));
      lock := Unlocked;
      return true;
    }

    method Track(call: nat, w: Waiter)
      modifies this
      ensures View().(lock := Unlocked) == Dispatched(old(View()), call, w)
      ensures lock == old(lock)
    {
      tasks := tasks[w.task := Task(false, w.drains, false, grants)];
      active := active[w.callId := w.task];
      if w.drains {
        uncancellable := uncancellable + {w.callId};
      }
      waiters := waiters[call := w];
    }

    method ReadResource(call: nat, callId: string, task: nat) returns (dispatched: bool)
      requires lock.Unlocked? && task !in tasks && call !in waiters
      modifies this
      ensures dispatched == Enabled(old(View()), Read(call, callId, task))
      ensures View() == if dispatched then Step(old(View()), Read(call, callId, task)) else old(View())
    {
      if closing || !consent || |active| >= 64 || callId in active {
        return false;
      }
      Track(call, Waiter(callId, task, true, false, true, 0));
      return true;
    }

    /** The `finally` of a call or a read. */
    method Forget(call: nat)
      requires Enabled(View(), Leave(call))
      modifies this
      ensures View() == Step(old(View()), Leave(call))
    {
      var w := waiters[call];
      active := active - {w.callId};
      if !w.reading {
        uncancellable := uncancellable - {w.callId};
      }
      waiters := waiters - {call};
    }

    method CancelCall(callId: string) returns (found: bool)
      requires lock.Unlocked? && (callId in active ==> active[callId] in tasks)
      modifies this
      ensures found == (callId in old(active) && !old(tasks[active[callId]].done))
      ensures View() == Step(old(View()), Cancel(callId))
    {
      if callId !in active || tasks[active[callId]].done {
        assert tasks == Asked(tasks, if callId in active then {active[callId]} else {});
        return false;
      }
      if callId !in uncancellable {
        tasks := Asked(tasks, {active[callId]});
      }
      return true;
    }

    method RevokeConsent(sweep: nat)
      requires sweep !in sweeps
      modifies this
      ensures View() == Step(old(View()), Write(sweep))
    {
      consent := false;
      sweeps := sweeps[sweep := Sweep(false, grants, Waiting, {})];
    }

    /** The first segment of `close`: reads are refused from here on, calls are not. */
    method BeginClose(sweep: nat)
      requires sweep !in sweeps
      modifies this
      ensures View() == Step(old(View()), Shut(sweep))
    {
      closing := true;
      sweeps := sweeps[sweep := Sweep(true, grants, Waiting, {})];
    }

    /** Under the lock: ask every cancellable active task to cancel and take the snapshot to wait for. */
    method CancelActive(sweep: nat)
      requires Enabled(View(), Take(sweep))
      modifies this
      ensures View() == Step(old(View()), Take(sweep))
    {
      hide Asked;
      ghost var start := View();
      lock := Sweeping(sweep);
      var ids := active.Keys;
      AskedNobody(start.tasks);
      assert Visited(start, ids) == {};
      while ids != {}
        invariant ids <= active.Keys
        invariant View() == start.(lock := Sweeping(sweep), tasks := Asked(start.tasks, Visited(start, ids)))
        decreases |ids|
      {
        var id :| id in ids;
        VisitOne(start, ids, id);
        ids := ids - {id};
        if id !in uncancellable {
          AskedTwice(start.tasks, Visited(start, ids + {id}), active[id]);
          tasks := Asked(tasks, {active[id]});
        }
      }
      assert Visited(start, {}) == Cancellable(start);
      sweeps := sweeps[sweep := sweeps[sweep].(phase := Draining, awaited := active.Values)];
    }

    method Drained(sweep: nat)
      requires Enabled(View(), Drain(sweep))
      modifies this
      ensures View() == Step(old(View()), Drain(sweep))
    {
      sweeps := sweeps[sweep := sweeps[sweep].(phase := Phase.Drained)];
    }

    /** The disable or close is cancelled: while it gathers, so is everything it gathers, and it keeps the lock. */
    method AbortSweep(sweep: nat)
      requires Enabled(View(), Abort(sweep))
      modifies this
      ensures View() == Step(old(View()), Abort(sweep))
    {
      if sweeps[sweep].phase.Draining? {
        tasks := Asked(tasks, sweeps[sweep].awaited);
        sweeps := sweeps[sweep := sweeps[sweep].(phase := Unwinding)];
        return;
      }
      if lock == Sweeping(sweep) {
        lock := Unlocked;
      }
      sweeps := sweeps - {sweep};
    }

    /** The cancelled gathering ends with its last task, and the lock is free. */
    method Unwound(sweep: nat)
      requires Enabled(View(), Unwind(sweep))
      modifies this
      ensures View() == Step(old(View()), Unwind(sweep))
    {
      if lock == Sweeping(sweep) {
        lock := Unlocked;
      }
      sweeps := sweeps - {sweep};
    }

    method FinishSweep(sweep: nat)
      requires Enabled(View(), Return(sweep))
      modifies this
      ensures View() == Step(old(View()), Return(sweep))
    {
      if lock == Sweeping(sweep) {
        lock := Unlocked;
      }
      sweeps := sweeps[sweep := sweeps[sweep].(phase := Returned)];
    }
  }

  /** The cancellable tasks whose call ids are no longer to be visited. */
  function Visited(s: State, ids: set<string>): set<nat> {
    set id | id in s.active && id !in ids && id !in s.uncancellable :: s.active[id]
  }

  lemma VisitOne(s: State, ids: set<string>, id: string)
    requires ids <= s.active.Keys && id in ids
    ensures Visited(s, ids - {id})
            == if id in s.uncancellable then Visited(s, ids) else Visited(s, ids) + {s.active[id]}
    ensures ids - {id} + {id} == ids
  {
    var before, after := Visited(s, ids), Visited(s, ids - {id});
    assert forall k :: k in s.active && k !in ids ==> k in s.active && k !in ids - {id};
    assert before <= after;
    if id !in s.uncancellable { assert s.active[id] in after; }
  }

  lemma AskedNobody(tasks: map<nat, Task>)
    ensures Asked(tasks, {}) == tasks
  {
  }

  lemma AskedTwice(tasks: map<nat, Task>, asked: set<nat>, task: nat)
    ensures Asked(Asked(tasks, asked), {task}) == Asked(tasks, asked + {task})
  {
  }
}
