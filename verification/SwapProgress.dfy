/**
 What a hot swap achieves: the new graph takes all new runs, the old one can be closed once its runs are over,
 and a close nobody disturbs leaves nothing behind.
 */
module SwapProgress {
  import opened Prelude
  import opened SharedComponents
  import opened HotSwap

  // ---------------------------------------------------------------- leases

  /** The runs on a graph whose task was cancelled before its first instruction: they never give their lease back. */
  function VanishedOn(s: State, es: seq<Event>, g: nat): nat
    requires Legal(s, es)
    decreases |es|
  {
    if es == [] then 0
    else (if es[0].Vanish? && s.runs[es[0].run] == g then 1 else 0) + VanishedOn(Step(s, es[0]), es[1..], g)
  }

  predicate KnownRuns(s: State) {
    forall r :: r in s.runs ==> s.runs[r] in s.graphs
  }

  /** The leases of a graph beyond those of its live runs. */
  function Surplus(s: State, g: nat): int
    requires g in s.graphs
  {
    s.graphs[g].leases - |LiveOn(s.runs, g)|
  }

  lemma FinishMoves(s: State, r: nat, g: nat)
    requires Leased(s) && Enabled(s, Finish(r)) && g in s.graphs
    ensures g in Step(s, Finish(r)).graphs && Surplus(Step(s, Finish(r)), g) == Surplus(s, g)
  {
    LiveOnEnds(s.runs, r);
    hide LiveOn;
    assert s.graphs[s.runs[r]].leases >= |LiveOn(s.runs, s.runs[r])| > 0;
  }

  lemma RunMoves(s: State, e: Event, g: nat)
    requires Leased(s) && Enabled(s, e) && g in s.graphs && (e.Admit? || e.Finish? || e.Vanish?)
    ensures g in Step(s, e).graphs
    ensures Surplus(Step(s, e), g) == Surplus(s, g) + if e.Vanish? && s.runs[e.run] == g then 1 else 0
  {
    match e
    case Admit(r) =>
      LiveOnChanges(s.runs, r, s.active.value);
      hide LiveOn, Leased;
    case Finish(r) =>
      FinishMoves(s, r, g);
      hide Surplus, Leased;
    case Vanish(r) =>
      LiveOnEnds(s.runs, r);
      hide LiveOn, Leased;
  }

  lemma StepSurplus(s: State, e: Event, g: nat)
    requires Leased(s) && Enabled(s, e) && g in s.graphs
    ensures g in Step(s, e).graphs
    ensures Surplus(Step(s, e), g) == Surplus(s, g) + if e.Vanish? && s.runs[e.run] == g then 1 else 0
  {
    if e.Admit? || e.Finish? || e.Vanish? {
      RunMoves(s, e, g);
    } else {
      LeasesMove(s, e);
    }
    hide Step, Enabled, LiveOn, Leased;
  }

  lemma {:induction false} RunSurplus(s: State, es: seq<Event>, g: nat)
    requires Leased(s) && Legal(s, es) && g in s.graphs
    ensures g in Run(s, es).graphs && Surplus(Run(s, es), g) == Surplus(s, g) + VanishedOn(s, es, g)
    decreases |es|
  {
    hide Leased, Enabled, Step, Surplus;
    if es != [] {
      StepKeepsLeased(s, es[0]);
      StepSurplus(s, es[0], g);
      RunSurplus(Step(s, es[0]), es[1..], g);
    }
  }

  /** The same from the start, where the graph is still to be prepared. */
  lemma {:induction false} LeasesFrom(s: State, es: seq<Event>, g: nat)
    requires Leased(s) && Legal(s, es) && g in Run(s, es).graphs
    requires g in s.graphs ==> Surplus(s, g) == 0
    ensures Surplus(Run(s, es), g) == VanishedOn(s, es, g)
    decreases |es|
  {
    hide Leased, Enabled;
    if g in s.graphs {
      RunSurplus(s, es, g);
    } else {
      var t := Step(s, es[0]);
      StepKeepsLeased(s, es[0]);
      NotYetThere(s, es[0], g);
      LeasesFrom(t, es[1..], g);
    }
  }

  lemma NotYetThere(s: State, e: Event, g: nat)
    requires Leased(s) && Enabled(s, e) && g !in s.graphs
    ensures g in Step(s, e).graphs ==> Surplus(Step(s, e), g) == 0
    ensures e.Vanish? ==> s.runs[e.run] != g
  {
    LeasesMove(s, e);
    NobodyOnNew(s, g);
    if e.Prepare? && e.graph == g {
      assert Step(s, e).runs == s.runs && Step(s, e).graphs[g].leases == 0;
    }
    hide LiveOn, Acted, CountsAfter;
  }

  /** Over all runs a graph's leases are its live runs and those that vanished on it. */
  lemma LeasesAreExact(es: seq<Event>, g: nat)
    requires Legal(Init, es) && g in Run(Init, es).graphs
    ensures Run(Init, es).graphs[g].leases == |LiveOn(Run(Init, es).runs, g)| + VanishedOn(Init, es, g)
  {
    LeasesFrom(Init, es, g);
  }

  /** So a drain ends when the runs on the graph are over, unless one of them vanished: then it never does. */
  lemma DrainIsExact(es: seq<Event>, g: nat, k: nat)
    requires Legal(Init, es) && g in Run(Init, es).drainDue
    requires g in Run(Init, es).graphs && k !in Run(Init, es).graphs[g].closers
    ensures Enabled(Run(Init, es), DrainClose(g, k))
            <==> LiveOn(Run(Init, es).runs, g) == {} && VanishedOn(Init, es, g) == 0
  {
    LeasesAreExact(es, g);
    hide Run, Legal, LiveOn, VanishedOn;
  }

  /** A run that vanished on a graph holds up its drain through every continuation. */
  lemma VanishedRunStallsDrain(es: seq<Event>, later: seq<Event>, g: nat, k: nat)
    requires Legal(Init, es) && g in Run(Init, es).graphs && VanishedOn(Init, es, g) > 0 && Legal(Run(Init, es), later)
    ensures !Enabled(Run(Run(Init, es), later), DrainClose(g, k))
  {
    RunKeepsLeased(Init, es);
    LeasesAreExact(es, g);
    RunSurplus(Run(Init, es), later, g);
    hide Run, Legal, VanishedOn;
  }

  /** A run is on the first graph when the second takes over. */
  lemma SwappedOverRun() returns (es: seq<Event>, s: State)
    ensures Legal(Init, es) && Obeys(Strict, Init, es) && Run(Init, es) == s
    ensures s.runs == map[0 := 0] && 0 in s.drainDue && 0 in s.graphs && s.graphs[0].leases == 1
  {
    hide Legal, Run, Obeys;
    EmptyRun(Strict);
    es, s := Then(Strict, [], Init, Prepare(0, []));
    es, s := Then(Strict, es, s, StartDone(0));
    es, s := Then(Strict, es, s, Activate(0));
    es, s := Then(Strict, es, s, Admit(0));
    es, s := Then(Strict, es, s, Prepare(1, []));
    es, s := Then(Strict, es, s, StartDone(1));
    es, s := Then(Strict, es, s, Swap(1));
  }

  /** Its task is cancelled before its first instruction: nothing runs any more, and the drain waits for ever. */
  lemma DrainStalls() returns (es: seq<Event>)
    ensures Legal(Init, es) && Obeys(Strict, Init, es) && 0 in Run(Init, es).drainDue && 0 in Run(Init, es).graphs
    ensures Run(Init, es).runs == map[] && VanishedOn(Init, es, 0) == 1
  {
    hide Legal, Run, Obeys, VanishedOn;
    var s: State;
    es, s := SwappedOverRun();
    es, s := Then(Strict, es, s, Vanish(0));
    assert s.runs == map[];
    LeasesAreExact(es, 0);
    assert LiveOn(s.runs, 0) == {};
  }

  // -------------------------------------------------------------- takeover

  /** Nothing takes over from the active graph meanwhile. */
  predicate Stays(es: seq<Event>) {
    forall i :: 0 <= i < |es| ==> !es[i].Swap? && !es[i].ShutdownDone?
  }

  lemma ActiveStep(s: State, e: Event, g: nat, seen: set<nat>)
    requires Enabled(s, e) && s.active == Some(g) && !e.Swap? && !e.ShutdownDone?
    requires forall r :: r in s.runs && r !in seen ==> s.runs[r] == g
    ensures Step(s, e).active == Some(g)
    ensures forall r :: r in Step(s, e).runs && r !in seen ==> Step(s, e).runs[r] == g
  {
    hide Acted, CountsAfter;
  }

  lemma {:induction false} ActiveTakesNewRuns(s: State, es: seq<Event>, g: nat, seen: set<nat>)
    requires Legal(s, es) && s.active == Some(g) && Stays(es)
    requires forall r :: r in s.runs && r !in seen ==> s.runs[r] == g
    ensures Run(s, es).active == Some(g)
    ensures forall r :: r in Run(s, es).runs && r !in seen ==> Run(s, es).runs[r] == g
    decreases |es|
  {
    hide Enabled, Step;
    if es != [] {
      ActiveStep(s, es[0], g, seen);
      assert Stays(es[1..]);
      ActiveTakesNewRuns(Step(s, es[0]), es[1..], g, seen);
    }
  }

  /** From a swap on, until the next, every new run is on the new graph, and the old one waits for its drain. */
  lemma SwapTakesOver(s: State, g: nat, es: seq<Event>)
    requires Enabled(s, Swap(g)) && Legal(Step(s, Swap(g)), es) && Stays(es)
    ensures var t := Step(s, Swap(g)); var before := s.active.value;
      && t.active == Some(g) && before in t.retired && before in t.drainDue
      && before in t.graphs && t.graphs[before].draining
      && forall r :: r in Run(t, es).runs && r !in s.runs ==> Run(t, es).runs[r] == g
  {
    ActiveTakesNewRuns(Step(s, Swap(g)), es, g, s.runs.Keys);
    hide Run, Legal;
  }

  /** A run is admitted on the active graph, which holds one lease more for it. */
  lemma AdmissionIsExact(s: State, r: nat)
    requires Enabled(s, Admit(r))
    ensures var t := Step(s, Admit(r));
      && t.runs == s.runs[r := s.active.value]
      && t.graphs == s.graphs[s.active.value := t.graphs[s.active.value]]
      && t.graphs[s.active.value].leases == s.graphs[s.active.value].leases + 1
  {
  }

  lemma SwapIsOpen(s: State, g: nat)
    requires g in s.candidates && At(s, g, Started) && s.active.Some? && s.active.value in s.graphs && s.shutdown.Open?
    ensures Enabled(s, Swap(g))
  {
  }

  // --------------------------------------------------------- a single owner

  /** A started graph that left its reconfiguration's hands never returns to them. */
  lemma SpentStep(s: State, e: Event, g: nat)
    requires Enabled(s, e) && g in s.graphs && Settled(s.graphs[g]) && g !in s.candidates
    ensures g in Step(s, e).graphs && Settled(Step(s, e).graphs[g]) && g !in Step(s, e).candidates
  {
    hide CountsAfter;
  }

  lemma {:induction false} SpentForever(s: State, es: seq<Event>, g: nat)
    requires Legal(s, es) && g in s.graphs && Settled(s.graphs[g]) && g !in s.candidates
    ensures g in Run(s, es).graphs && g !in Run(s, es).candidates
    decreases |es|
  {
    hide Enabled, Step, Settled;
    if es != [] {
      SpentStep(s, es[0], g);
      SpentForever(Step(s, es[0]), es[1..], g);
    }
  }

  /** A candidate is activated, swapped in or discarded, and only once, whatever follows. */
  lemma CandidatesAreUsedOnce(s: State, e: Event, es: seq<Event>)
    requires Enabled(s, e) && (e.Activate? || e.Swap? || e.Discard?) && Legal(Step(s, e), es)
    ensures e.graph in s.candidates && At(s, e.graph, Started)
    ensures e.graph !in Run(Step(s, e), es).candidates
  {
    SpentNow(s, e);
    SpentForever(Step(s, e), es, e.graph);
  }

  lemma SpentNow(s: State, e: Event)
    requires Enabled(s, e) && (e.Activate? || e.Swap? || e.Discard?)
    ensures var t := Step(s, e); e.graph in t.graphs && Settled(t.graphs[e.graph]) && e.graph !in t.candidates
  {
    hide CountsAfter;
  }

  // ---------------------------------------------------------- a whole close

  /** The steps of a close nobody disturbs, from the component it has to release next. */
  function CloseScript(g: nat, k: nat, left: nat): seq<Event> {
    if left == 0 then [CloseClears(g, k), CloseDone(g, k)] else [CloseOne(g, k)] + CloseScript(g, k, left - 1)
  }

  lemma CloseOneStep(s: State, g: nat, k: nat, left: nat)
    requires At(s, g, Started) && s.graphs[g].closers == map[k := left] && 0 < left <= |s.graphs[g].components|
    ensures Enabled(s, CloseOne(g, k))
    ensures var t := Step(s, CloseOne(g, k));
      && At(t, g, Started) && t.graphs[g].closers == map[k := left - 1] && t.graphs[g].held == left - 1
      && t.graphs[g].components == s.graphs[g].components && t.retired == s.retired
  {
    assert s.graphs[g].closers[k := left - 1] == map[k := left - 1];
    hide CountsAfter;
  }

  lemma CloseEnds(s: State, g: nat, k: nat)
    requires At(s, g, Started) && s.graphs[g].closers == map[k := 0] && s.graphs[g].held == 0
    ensures Legal(s, [CloseClears(g, k), CloseDone(g, k)])
    ensures var t := Run(s, [CloseClears(g, k), CloseDone(g, k)]);
      && At(t, g, Closed) && t.graphs[g].closers == map[] && t.graphs[g].held == 0 && t.retired == s.retired - {g}
  {
    var a, b := CloseClears(g, k), CloseDone(g, k);
    var t := Step(s, a);
    assert At(t, g, Closed) && t.graphs[g].closers == map[k := 0];
    var u := Step(t, b);
    assert u.graphs[g].closers == map[];
    Unroll(u, [], b, t);
    Unroll(t, [b], a, s);
    assert [b] + [] == [b] && [a] + [b] == [a, b];
    hide CountsAfter, Acted, Touched;
  }

  lemma Unroll(t: State, rest: seq<Event>, e: Event, s: State)
    requires Enabled(s, e) && Step(s, e) == t && Legal(t, rest)
    ensures Legal(s, [e] + rest) && Run(s, [e] + rest) == Run(t, rest)
  {
    hide Enabled, Step;
    assert ([e] + rest)[1..] == rest;
  }

  /** A close that runs to its end leaves the graph closed, holding nothing, and no longer retired. */
  lemma {:induction false} UndisturbedCloseFinishes(s: State, g: nat, k: nat, left: nat)
    requires At(s, g, Started) && s.graphs[g].closers == map[k := left] && left <= |s.graphs[g].components|
    requires s.graphs[g].held == left
    ensures Legal(s, CloseScript(g, k, left))
    ensures var t := Run(s, CloseScript(g, k, left));
      && At(t, g, Closed) && t.graphs[g].closers == map[] && t.graphs[g].held == 0 && t.retired == s.retired - {g}
    decreases left
  {
    if left == 0 {
      CloseEnds(s, g, k);
    } else {
      CloseOneStep(s, g, k, left);
      var t := Step(s, CloseOne(g, k));
      UndisturbedCloseFinishes(t, g, k, left - 1);
      hide Enabled, Step, Run, Legal;
      Unroll(t, CloseScript(g, k, left - 1), CloseOne(g, k), s);
    }
  }

  // -------------------------------------------------------------- endings

  /** A graph is closed by its drain once: from then on it is not due, and never active again. */
  ghost predicate Gone(s: State, g: nat) {
    g in s.graphs && Settled(s.graphs[g]) && g !in s.candidates && g !in s.drainDue && s.active != Some(g)
  }

  lemma GoneStep(s: State, e: Event, g: nat)
    requires Enabled(s, e) && Gone(s, g)
    ensures Gone(Step(s, e), g)
  {
    hide CountsAfter;
  }

  lemma {:induction false} GoneForever(s: State, es: seq<Event>, g: nat)
    requires Legal(s, es) && Gone(s, g)
    ensures Gone(Run(s, es), g)
    decreases |es|
  {
    hide Enabled, Step, Gone;
    if es != [] {
      GoneStep(s, es[0], g);
      GoneForever(Step(s, es[0]), es[1..], g);
    }
  }

  lemma DrainsOnce(s: State, e: Event, es: seq<Event>)
    requires Enabled(s, e) && (e.DrainClose? || e.ForceClose?) && Settled(s.graphs[e.graph])
    requires e.graph !in s.candidates && s.active != Some(e.graph) && Legal(Step(s, e), es)
    ensures Gone(Run(Step(s, e), es), e.graph)
  {
    DrainTakesOff(s, e);
    GoneForever(Step(s, e), es, e.graph);
  }

  lemma DrainTakesOff(s: State, e: Event)
    requires Enabled(s, e) && (e.DrainClose? || e.ForceClose?) && Settled(s.graphs[e.graph])
    requires e.graph !in s.candidates && s.active != Some(e.graph)
    ensures Gone(Step(s, e), e.graph)
  {
    hide CountsAfter;
  }

  /** A shutdown that runs to its end leaves no graph active or retired, and one that is cancelled leaves them all. */
  lemma ShutdownIsExact(s: State)
    ensures Enabled(s, ShutdownBegins) ==> Step(s, ShutdownBegins) == s.(shutdown := Stopping)
    ensures Enabled(s, ShutdownAborts) ==> Step(s, ShutdownAborts) == s.(shutdown := Stopped)
    ensures Enabled(s, ShutdownDone) ==>
              && Step(s, ShutdownDone) == s.(shutdown := Stopped, active := None, retired := {})
              && forall g :: g in s.graphs && (s.active == Some(g) || g in s.retired) ==> s.graphs[g].stage.Closed?
  {
  }

  /** Once begun, a shutdown admits and activates nothing any more, however it ends. */
  lemma {:induction false} ShutdownIsFinal(s: State, es: seq<Event>)
    requires Legal(s, es) && !s.shutdown.Open?
    ensures !Run(s, es).shutdown.Open? && forall r :: r in Run(s, es).runs ==> r in s.runs
    ensures forall e :: Enabled(Run(s, es), e) ==> !e.Admit? && !e.Activate?
    decreases |es|
  {
    hide Acted, CountsAfter;
    if es != [] {
      ShutdownIsFinal(Step(s, es[0]), es[1..]);
    }
  }
}
