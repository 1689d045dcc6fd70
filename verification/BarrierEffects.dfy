/** What each segment at the admission barrier does to consent, the tables of active calls and the tasks. */
module BarrierEffects {
  import opened Prelude
  import opened ConsentProtocol

  /** These tasks are asked to cancel unless they are done; nothing else about any task moves. */
  ghost predicate AsksOnly(before: map<nat, Task>, after: map<nat, Task>, asked: nat -> bool) {
    && after.Keys == before.Keys
    && (forall t :: t in before ==>
          && after[t].(cancelRequested := false) == before[t].(cancelRequested := false)
          && (after[t].cancelRequested <==> before[t].cancelRequested || (asked(t) && !before[t].done)))
  }

  lemma AskingIsExact(tasks: map<nat, Task>, which: set<nat>)
    ensures AsksOnly(tasks, Asked(tasks, which), t => t in which)
  {
  }

  /** Some listed call that may be cancelled has this task. */
  ghost predicate MayBeAsked(s: State, t: nat) {
    exists id :: id in s.active && s.active[id] == t && id !in s.uncancellable
  }

  lemma CancellableMayBeAsked(s: State)
    ensures forall t :: t in Cancellable(s) <==> MayBeAsked(s, t)
  {
  }

  /** An admission holds the barrier under consent; it ends in a dispatch under consent or in a refusal. */
  lemma AdmissionIsExact(s: State, c: nat)
    ensures Enabled(s, Begin(c)) <==> s.lock.Unlocked? && s.consent
    ensures Enabled(s, Begin(c)) ==> Step(s, Begin(c)) == s.(lock := Admitting(c))
    ensures Enabled(s, Refuse(c)) <==> s.lock == Admitting(c)
    ensures Enabled(s, Refuse(c)) ==> Step(s, Refuse(c)) == s.(lock := Unlocked)
  {
  }

  /** A dispatch lists its new task under the call's identifier, marked when it must drain, and frees the barrier. */
  lemma DispatchIsExact(s: State, e: Event)
    requires (e.Launch? || e.Read?) && Enabled(s, e)
    ensures var u := Step(s, e); var drains := e.Launch? && e.drains;
      && s.consent && u == s.(lock := Unlocked, active := u.active, uncancellable := u.uncancellable, tasks := u.tasks,
           waiters := u.waiters)
      && u.active == s.active[e.callId := e.task]
      && u.uncancellable == (if drains then s.uncancellable + {e.callId} else s.uncancellable)
      && u.tasks == s.tasks[e.task := Task(false, drains, false, s.grants)]
      && u.waiters == s.waiters[e.call := Waiter(e.callId, e.task, e.Read?, drains, e.Launch? ==> e.deadlineOk, 0)]
  {
  }

  /** Reads are bounded, refused to a closing host, and never take an identifier in use. */
  lemma ReadingIsExact(s: State, c: nat, id: string, t: nat)
    requires t !in s.tasks && c !in s.waiters
    ensures Enabled(s, Read(c, id, t))
            <==> s.lock.Unlocked? && s.consent && !s.closing && id !in s.active && |s.active| <= 63
  {
  }

  /** A cancellation asks the task found under the identifier, if it may be cancelled. */
  lemma CancelIsExact(s: State, id: string)
    requires Enabled(s, Cancel(id))
    ensures var u := Step(s, Cancel(id));
      && u == s.(tasks := u.tasks)
      && AsksOnly(s.tasks, u.tasks, t => id in s.active && s.active[id] == t && id !in s.uncancellable)
  {
    if id in s.active && id !in s.uncancellable {
      AskingIsExact(s.tasks, {s.active[id]});
    }
    hide Asked;
  }

  /** An interrupted wait cancels its task unless the task must drain. */
  lemma InterruptIsExact(s: State, c: nat)
    requires Enabled(s, Interrupt(c))
    ensures var w := s.waiters[c]; var u := Step(s, Interrupt(c));
      && u == s.(tasks := u.tasks, waiters := s.waiters[c := w.(interrupts := w.interrupts + 1)])
      && AsksOnly(s.tasks, u.tasks, t => t == w.task && !w.drains)
  {
    AskingIsExact(s.tasks, {s.waiters[c].task});
    hide Asked;
  }

  /** A call that leaves takes its identifier off the lists; a read leaves the mark. */
  lemma LeavingIsExact(s: State, c: nat)
    requires Enabled(s, Leave(c))
    ensures var w := s.waiters[c]; var u := Step(s, Leave(c));
      && u == s.(active := u.active, uncancellable := u.uncancellable, waiters := s.waiters - {c})
      && u.active == s.active - {w.callId}
      && (forall id :: id in u.uncancellable <==> id in s.uncancellable && (id == w.callId ==> w.reading))
  {
  }

  /** A wait ends with its task; before that only by a refused deadline or a second interruption. */
  lemma LeavingTime(s: State, c: nat)
    ensures Enabled(s, Leave(c))
            <==> c in s.waiters && ((s.waiters[c].task in s.tasks && s.tasks[s.waiters[c].task].done)
                                    || !s.waiters[c].deadlineOk || s.waiters[c].interrupts > 1)
  {
  }

  /** Under the barrier a disable or close asks all it may to cancel, and waits for all that is listed. */
  lemma TakingIsExact(s: State, d: nat)
    requires Enabled(s, Take(d))
    ensures var u := Step(s, Take(d));
      && u == s.(lock := Sweeping(d), tasks := u.tasks, sweeps := u.sweeps)
      && AsksOnly(s.tasks, u.tasks, (t: nat) => MayBeAsked(s, t))
      && u.sweeps.Keys == s.sweeps.Keys && (forall k :: k in s.sweeps && k != d ==> u.sweeps[k] == s.sweeps[k])
      && u.sweeps[d].closes == s.sweeps[d].closes && u.sweeps[d].epoch == s.sweeps[d].epoch
      && u.sweeps[d].phase.Draining?
      && (forall t :: t in u.sweeps[d].awaited <==> exists id :: id in s.active && s.active[id] == t)
  {
    AskingIsExact(s.tasks, Cancellable(s));
    CancellableMayBeAsked(s);
    hide Asked, Cancellable;
  }

  /** It goes on when all that is done, returns, and leaves the barrier free. */
  lemma ReturningIsExact(s: State, d: nat)
    requires d in s.sweeps && s.sweeps[d].phase.Draining? && s.lock == Sweeping(d)
    requires forall t :: t in s.sweeps[d].awaited ==> t in s.tasks && s.tasks[t].done
    ensures Enabled(s, Drain(d)) && Enabled(Step(s, Drain(d)), Return(d))
    ensures var u := Step(Step(s, Drain(d)), Return(d));
      u == s.(lock := Unlocked, sweeps := s.sweeps[d := s.sweeps[d].(phase := Returned)])
  {
  }

  lemma DrainingWaits(s: State, d: nat)
    requires Enabled(s, Drain(d))
    ensures forall t :: t in s.sweeps[d].awaited ==> t in s.tasks && s.tasks[t].done
  {
  }

  /**
   Cancelled while it waits for tasks it cancels them and keeps the barrier until they are done; elsewhere it
   frees it.
   */
  lemma AbortingIsExact(s: State, d: nat)
    requires Enabled(s, Abort(d))
    ensures var u := Step(s, Abort(d));
      && (s.sweeps[d].phase.Draining? ==>
            && u == s.(tasks := u.tasks, sweeps := s.sweeps[d := s.sweeps[d].(phase := Unwinding)])
            && AsksOnly(s.tasks, u.tasks, t => t in s.sweeps[d].awaited))
      && (!s.sweeps[d].phase.Draining? ==>
            u == s.(sweeps := s.sweeps - {d}, lock := if s.lock == Sweeping(d) then Unlocked else s.lock))
  {
    AskingIsExact(s.tasks, s.sweeps[d].awaited);
    hide Asked;
  }

  lemma UnwindingIsExact(s: State, d: nat)
    requires d in s.sweeps && s.sweeps[d].phase.Unwinding?
    ensures Enabled(s, Unwind(d)) <==> forall t :: t in s.sweeps[d].awaited ==> t in s.tasks && s.tasks[t].done
    ensures Enabled(s, Unwind(d)) ==>
              Step(s, Unwind(d))
              == s.(sweeps := s.sweeps - {d}, lock := if s.lock == Sweeping(d) then Unlocked else s.lock)
  {
  }

  /** Consent is on after a grant and off after a revocation or the first step of a disable; a close leaves it. */
  lemma ConsentIsExact(s: State, d: nat)
    requires d !in s.sweeps
    ensures Step(s, Grant) == s.(consent := true, grants := s.grants + 1) && Step(s, Revoke) == s.(consent := false)
    ensures Step(s, Write(d)) == s.(consent := false, sweeps := s.sweeps[d := Sweep(false, s.grants, Waiting, {})])
    ensures Step(s, Shut(d)) == s.(closing := true, sweeps := s.sweeps[d := Sweep(true, s.grants, Waiting, {})])
  {
  }

  lemma FinishingIsExact(s: State, t: nat)
    requires t in s.tasks
    ensures Enabled(s, Finish(t)) && Step(s, Finish(t)) == s.(tasks := s.tasks[t := s.tasks[t].(done := true)])
  {
  }
}
