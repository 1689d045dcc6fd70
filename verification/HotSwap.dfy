/** Reference counts of shared components, and the starts and closes they cause. */
module SharedComponents {
  import opened Prelude

  type Component = nat

  datatype Mark = Start(component: Component) | Close(component: Component)

  /** `log`: every call of a component's `start` that succeeded and every call of its `close`. */
  datatype Counts = Counts(refs: map<Component, nat>, log: seq<Mark>)

  function Refs(c: Counts, x: Component): nat {
    if x in c.refs then c.refs[x] else 0
  }

  /** Only the first reference starts the component. */
  function Acquired(c: Counts, x: Component): Counts {
    Counts(c.refs[x := Refs(c, x) + 1], if Refs(c, x) == 0 then c.log + [Start(x)] else c.log)
  }

  /** The last reference closes it, and so does a release without any. */
  function Released(c: Counts, x: Component): Counts {
    if Refs(c, x) > 1 then c.(refs := c.refs[x := c.refs[x] - 1])
    else Counts(c.refs - {x}, c.log + [Close(x)])
  }

  function RunningAfter(log: seq<Mark>): set<Component>
    decreases |log|
  {
    if log == [] then {}
    else
      var before := RunningAfter(log[..|log| - 1]);
      match log[|log| - 1]
      case Start(x) => before + {x}
      case Close(x) => before - {x}
  }

  /** No component is started while it runs or closed while it does not. */
  predicate Alternates(log: seq<Mark>)
    decreases |log|
  {
    log == [] ||
    (var before := log[..|log| - 1];
     Alternates(before)
     && match log[|log| - 1]
        case Start(x) => x !in RunningAfter(before)
        case Close(x) => x in RunningAfter(before))
  }

  /** A component runs exactly while it is referenced. */
  ghost predicate Exact(c: Counts) {
    Alternates(c.log) && (forall x :: x in RunningAfter(c.log) <==> Refs(c, x) > 0)
  }

  lemma LogGrows(log: seq<Mark>, m: Mark)
    ensures RunningAfter(log + [m])
            == (if m.Start? then RunningAfter(log) + {m.component} else RunningAfter(log) - {m.component})
    ensures Alternates(log + [m]) <==> Alternates(log) && (m.Start? <==> m.component !in RunningAfter(log))
  {
    assert (log + [m])[..|log|] == log;
  }

  lemma AcquiredIsExact(c: Counts, x: Component)
    requires Exact(c)
    ensures Exact(Acquired(c, x)) && forall y :: Refs(Acquired(c, x), y) == Refs(c, y) + if y == x then 1 else 0
  {
    LogGrows(c.log, Start(x));
    hide RunningAfter, Alternates;
  }

  lemma ReleasedIsExact(c: Counts, x: Component)
    requires Exact(c) && Refs(c, x) > 0
    ensures Exact(Released(c, x)) && forall y :: Refs(Released(c, x), y) == Refs(c, y) - if y == x then 1 else 0
  {
    LogGrows(c.log, Close(x));
    hide RunningAfter, Alternates;
  }

  /** A release nobody is entitled to closes a component that does not run. */
  lemma StrayReleaseBreaks(c: Counts, x: Component)
    requires Exact(c) && Refs(c, x) == 0
    ensures !Alternates(Released(c, x).log)
  {
    LogGrows(c.log, Close(x));
    hide RunningAfter, Alternates;
  }
}

/**
 Module graphs under reconfiguration, shutdown and runs, component by component: any number of starts,
 rollbacks and closes interleave at the component lock.
 */
module HotSwap {
  import opened Prelude
  import opened SharedComponents

  /**
   `Started` is the flag a close tests first and clears once everything is released; `Leaked` is a rollback
   that ended early.
   */
  datatype Stage = Starting | RollingBack | Leaked | Started | Closed

  /**
   `held`: how many of the components, from the front, are acquired and not released. `closers`: for each
   close on its way down, how many components it has still to release.
   */
  datatype Graph = Graph(
    components: seq<Component>, stage: Stage, held: nat, closers: map<nat, nat>, leases: nat, draining: bool)

  /** The runtime's own close: not begun, under way with the lifecycle lock, or over, finished or cancelled. */
  datatype Shutdown = Open | Stopping | Stopped

  /** `candidates`: the graphs still in the hands of the reconfigurations that prepared them. */
  datatype State = State(
    graphs: map<nat, Graph>, candidates: set<nat>, active: Option<nat>, retired: set<nat>, drainDue: set<nat>,
    counts: Counts, runs: map<nat, nat>, shutdown: Shutdown)

  const Init := State(map[], {}, None, {}, {}, Counts(map[], []), map[], Open)

  datatype Event =
    | Prepare(graph: nat, components: seq<Component>)
    | StartOne(graph: nat)
    | StartFails(graph: nat)
    | StartDone(graph: nat)
    | RollbackOne(graph: nat)
    | RollbackRaises(graph: nat)
    | RollbackCancelled(graph: nat)
    | Activate(graph: nat)
    | Swap(graph: nat)
    | Discard(graph: nat, closer: nat)
    | DrainClose(graph: nat, closer: nat)
    | ForceClose(graph: nat, closer: nat)
    | ShutdownClose(graph: nat, closer: nat)
    | CloseOne(graph: nat, closer: nat)
    | CloseClears(graph: nat, closer: nat)
    | CloseDone(graph: nat, closer: nat)
    | CloseAborts(graph: nat, closer: nat)
    | Admit(run: nat)
    | Finish(run: nat)
    | Vanish(run: nat)
    | ShutdownBegins
    | ShutdownDone
    | ShutdownAborts

  /** The live runs admitted on a graph. */
  function LiveOn(runs: map<nat, nat>, g: nat): set<nat> {
    set r | r in runs && runs[r] == g
  }

  predicate Candidate(s: State, g: nat) {
    g in s.candidates && g in s.graphs && s.graphs[g].stage.Started?
  }

  predicate At(s: State, g: nat, stage: Stage) {
    g in s.graphs && s.graphs[g].stage == stage
  }

  predicate Enabled(s: State, e: Event) {
    match e
    case Prepare(g, _) => g !in s.graphs
    case StartOne(g) => At(s, g, Starting) && s.graphs[g].held < |s.graphs[g].components|
    case StartFails(g) => At(s, g, Starting)
    case StartDone(g) => At(s, g, Starting) && s.graphs[g].held == |s.graphs[g].components|
    case RollbackOne(g) => At(s, g, RollingBack) && 0 < s.graphs[g].held <= |s.graphs[g].components|
    case RollbackRaises(g) => At(s, g, RollingBack) && 0 < s.graphs[g].held <= |s.graphs[g].components|
    case RollbackCancelled(g) => At(s, g, RollingBack) && 0 < s.graphs[g].held
    case Activate(g) => Candidate(s, g) && s.active.None? && s.shutdown.Open?
    case Swap(g) => Candidate(s, g) && s.active.Some? && s.active.value in s.graphs && !s.shutdown.Stopping?
    case Discard(g, k) => Candidate(s, g) && k !in s.graphs[g].closers
    case DrainClose(g, k) => g in s.drainDue && g in s.graphs && s.graphs[g].leases == 0 && k !in s.graphs[g].closers
    case ForceClose(g, k) => g in s.drainDue && g in s.graphs && LiveOn(s.runs, g) == {} && k !in s.graphs[g].closers
    case ShutdownClose(g, k) =>
      s.shutdown.Stopping? && g in s.graphs && (s.active == Some(g) || g in s.retired) && k !in s.graphs[g].closers
    case CloseOne(g, k) =>
      g in s.graphs && k in s.graphs[g].closers && 0 < s.graphs[g].closers[k] <= |s.graphs[g].components|
    case CloseClears(g, k) => At(s, g, Started) && k in s.graphs[g].closers && s.graphs[g].closers[k] == 0
    case CloseDone(g, k) => At(s, g, Closed) && k in s.graphs[g].closers && s.graphs[g].closers[k] == 0
    case CloseAborts(g, k) => g in s.graphs && k in s.graphs[g].closers
    case Admit(r) =>
      s.active.Some? && s.active.value in s.graphs && !s.graphs[s.active.value].draining && r !in s.runs
      && s.shutdown.Open?
    case Finish(r) => r in s.runs && s.runs[r] in s.graphs
    case Vanish(r) => r in s.runs
    case ShutdownBegins => s.runs == map[] && s.shutdown.Open?
    case ShutdownDone =>
      s.shutdown.Stopping?
      && forall g :: g in s.graphs && (s.active == Some(g) || g in s.retired) ==> s.graphs[g].stage.Closed?
    case ShutdownAborts => s.shutdown.Stopping?
  }

  /** A close begins: it will release every component if the flag says they are started. */
  function Closing(g: Graph, k: nat): Graph {
    g.(closers := g.closers[k := if g.stage.Started? then |g.components| else 0])
  }

  /** `release` of a lease. */
  function Unleased(g: Graph): Graph {
    g.(leases := if g.leases < 1 then 0 else g.leases - 1)
  }

  /** The component whose count an event changes: acquired by `StartOne`, released otherwise. */
  function Touched(s: State, e: Event): Option<Component>
    requires Enabled(s, e)
  {
    match e
    case StartOne(g) => Some(s.graphs[g].components[s.graphs[g].held])
    case RollbackOne(g) => Some(s.graphs[g].components[s.graphs[g].held - 1])
    case RollbackRaises(g) => Some(s.graphs[g].components[s.graphs[g].held - 1])
    case CloseOne(g, k) => Some(s.graphs[g].components[s.graphs[g].closers[k] - 1])
    case _ => None
  }

  function CountsAfter(s: State, e: Event): Counts
    requires Enabled(s, e)
  {
    match Touched(s, e)
    case None => s.counts
    case Some(x) => if e.StartOne? then Acquired(s.counts, x) else Released(s.counts, x)
  }

  /** The graph an event acts on. */
  function Acted(s: State, e: Event): (r: Option<(nat, Graph)>)
    requires Enabled(s, e)
  {
    match e
    case Prepare(g, components) => Some((g, Graph(components, Starting, 0, map[], 0, false)))
    case StartOne(g) => Some((g, s.graphs[g].(held := s.graphs[g].held + 1)))
    case StartFails(g) => Some((g, s.graphs[g].(stage := RollingBack)))
    case StartDone(g) => Some((g, s.graphs[g].(stage := Started)))
    case RollbackOne(g) => Some((g, s.graphs[g].(held := s.graphs[g].held - 1)))
    case RollbackRaises(g) => Some((g, s.graphs[g].(held := s.graphs[g].held - 1, stage := Leaked)))
    case RollbackCancelled(g) => Some((g, s.graphs[g].(stage := Leaked)))
    case Swap(_) => Some((s.active.value, s.graphs[s.active.value].(draining := true)))
    case Discard(g, k) => Some((g, Closing(s.graphs[g], k)))
    case DrainClose(g, k) => Some((g, Closing(s.graphs[g], k)))
    case ForceClose(g, k) => Some((g, Closing(s.graphs[g], k)))
    case ShutdownClose(g, k) => Some((g, Closing(s.graphs[g], k)))
    case CloseOne(g, k) =>
      var left := s.graphs[g].closers[k] - 1;
      Some((g, s.graphs[g].(held := left, closers := s.graphs[g].closers[k := left])))
    case CloseClears(g, _) => Some((g, s.graphs[g].(stage := Closed)))
    case CloseDone(g, k) => Some((g, s.graphs[g].(closers := s.graphs[g].closers - {k})))
    case CloseAborts(g, k) => Some((g, s.graphs[g].(closers := s.graphs[g].closers - {k})))
    case Admit(_) => Some((s.active.value, s.graphs[s.active.value].(leases := s.graphs[s.active.value].leases + 1)))
    case Finish(r) => Some((s.runs[r], Unleased(s.graphs[s.runs[r]])))
    case _ => None
  }

  function Step(s: State, e: Event): State
    requires Enabled(s, e)
  {
    var graphs := match Acted(s, e) case None => s.graphs case Some((g, graph)) => s.graphs[g := graph];
    var t := s.(graphs := graphs, counts := CountsAfter(s, e));
    match e
    case StartDone(g) => t.(candidates := s.candidates + {g})
    case Activate(g) => t.(candidates := s.candidates - {g}, active := Some(g))
    case Swap(g) =>
      t.(candidates := s.candidates - {g}, active := Some(g),
         retired := s.retired + {s.active.value}, drainDue := s.drainDue + {s.active.value})
    case Discard(g, _) => t.(candidates := s.candidates - {g})
    case DrainClose(g, _) => t.(drainDue := s.drainDue - {g})
    case ForceClose(g, _) => t.(drainDue := s.drainDue - {g})
    case CloseDone(g, _) => t.(retired := s.retired - {g})
    case Admit(r) => t.(runs := s.runs[r := s.active.value])
    case Finish(r) => t.(runs := s.runs - {r})
    case Vanish(r) => t.(runs := s.runs - {r})
    case ShutdownBegins => t.(shutdown := Stopping)
    case ShutdownDone => t.(shutdown := Stopped, active := None, retired := {})
    case ShutdownAborts => t.(shutdown := Stopped)
    case _ => t
  }

  predicate Legal(s: State, es: seq<Event>)
    decreases |es|
  {
    es == [] || (Enabled(s, es[0]) && Legal(Step(s, es[0]), es[1..]))
  }

  function Run(s: State, es: seq<Event>): State
    requires Legal(s, es)
    decreases |es|
  {
    if es == [] then s else Run(Step(s, es[0]), es[1..])
  }

  // ---------------------------------------------------- leases and drains

  /** A lease for every live run; what waits to be drained is draining. */
  predicate Leased(s: State) {
    && (forall r :: r in s.runs ==> s.runs[r] in s.graphs)
    && (forall g :: g in s.graphs ==> s.graphs[g].leases >= |LiveOn(s.runs, g)|)
    && (forall g :: g in s.drainDue ==> g in s.graphs && s.graphs[g].draining)
  }

  lemma LiveOnChanges(runs: map<nat, nat>, r: nat, g: nat)
    requires r !in runs
    ensures LiveOn(runs[r := g], g) == LiveOn(runs, g) + {r}
    ensures forall h :: h != g ==> LiveOn(runs[r := g], h) == LiveOn(runs, h)
  {
  }

  lemma LiveOnEnds(runs: map<nat, nat>, r: nat)
    requires r in runs
    ensures LiveOn(runs - {r}, runs[r]) == LiveOn(runs, runs[r]) - {r} && r in LiveOn(runs, runs[r])
    ensures forall h :: h != runs[r] ==> LiveOn(runs - {r}, h) == LiveOn(runs, h)
  {
  }

  lemma NobodyOnNew(s: State, g: nat)
    requires Leased(s) && g !in s.graphs
    ensures LiveOn(s.runs, g) == {}
  {
  }

  /** An event changes the leases of one graph at most, and only when a run comes or goes. */
  lemma LeasesMove(s: State, e: Event)
    requires Enabled(s, e)
    ensures var t := Step(s, e);
      && s.graphs.Keys <= t.graphs.Keys
      && (forall h :: h in s.graphs && s.graphs[h].draining ==> t.graphs[h].draining)
      && (!e.Admit? && !e.Finish? ==> forall h :: h in s.graphs ==> t.graphs[h].leases == s.graphs[h].leases)
      && (forall h :: h in t.graphs && h !in s.graphs ==> e.Prepare? && h == e.graph)
      && (!e.Admit? && !e.Finish? && !e.Vanish? ==> t.runs == s.runs)
      && (t.drainDue <= s.drainDue || (e.Swap? && t.drainDue == s.drainDue + {s.active.value}
                                         && s.active.value in t.graphs && t.graphs[s.active.value].draining))
  {
    hide CountsAfter, Acted;
    ActedLeases(s, e);
    SwapDrains(s, e);
  }

  lemma ActedLeases(s: State, e: Event)
    requires Enabled(s, e)
    ensures Acted(s, e).Some? ==>
              var (g, graph) := Acted(s, e).value;
              && (g !in s.graphs ==> e.Prepare? && g == e.graph)
              && (g in s.graphs && s.graphs[g].draining ==> graph.draining)
              && (g in s.graphs && !e.Admit? && !e.Finish? ==> graph.leases == s.graphs[g].leases)
  {
  }

  lemma SwapDrains(s: State, e: Event)
    requires Enabled(s, e)
    ensures e.Swap? ==> Acted(s, e) == Some((s.active.value, s.graphs[s.active.value].(draining := true)))
  {
  }

  lemma RunComesOrGoes(s: State, e: Event)
    requires Leased(s) && Enabled(s, e) && (e.Admit? || e.Finish? || e.Vanish?)
    ensures Leased(Step(s, e))
  {
    hide LiveOn;
    match e
    case Admit(r) => LiveOnChanges(s.runs, r, s.active.value);
    case Finish(r) => LiveOnEnds(s.runs, r);
    case Vanish(r) => LiveOnEnds(s.runs, r);
  }

  lemma StepKeepsLeased(s: State, e: Event)
    requires Leased(s) && Enabled(s, e)
    ensures Leased(Step(s, e))
  {
    hide LiveOn, Step, Enabled;
    if e.Admit? || e.Finish? || e.Vanish? {
      RunComesOrGoes(s, e);
    } else {
      LeasesMove(s, e);
      if e.Prepare? && e.graph !in s.graphs {
        NobodyOnNew(s, e.graph);
      }
    }
  }

  lemma {:induction false} RunKeepsLeased(s: State, es: seq<Event>)
    requires Leased(s) && Legal(s, es)
    ensures Leased(Run(s, es))
    decreases |es|
  {
    hide Leased, Enabled, Step;
    if es != [] {
      StepKeepsLeased(s, es[0]);
      RunKeepsLeased(Step(s, es[0]), es[1..]);
    }
  }

  lemma DrainingAdmitsNothing(s: State, e: Event, g: nat)
    requires Enabled(s, e) && g in s.graphs && s.graphs[g].draining
    ensures LiveOn(Step(s, e).runs, g) <= LiveOn(s.runs, g)
  {
    if e.Admit? { LiveOnChanges(s.runs, e.run, s.active.value); }
  }

  /** Nothing runs on a draining graph with no live run, ever again. */
  lemma {:induction false} DrainedStaysIdle(s: State, es: seq<Event>, g: nat)
    requires Legal(s, es) && g in s.graphs && s.graphs[g].draining && LiveOn(s.runs, g) == {}
    ensures g in Run(s, es).graphs && LiveOn(Run(s, es).runs, g) == {}
    decreases |es|
  {
    hide LiveOn, Step, Enabled;
    if es != [] {
      LeasesMove(s, es[0]);
      DrainingAdmitsNothing(s, es[0], g);
      DrainedStaysIdle(Step(s, es[0]), es[1..], g);
    }
  }

  /** In drain mode the retired graph is closed only when no run admitted on it executes, then or later. */
  lemma DrainCloseIsIdle(es: seq<Event>, g: nat, k: nat, later: seq<Event>)
    requires Legal(Init, es) && Enabled(Run(Init, es), DrainClose(g, k))
    requires Legal(Step(Run(Init, es), DrainClose(g, k)), later)
    ensures LiveOn(Run(Init, es).runs, g) == {}
    ensures LiveOn(Run(Step(Run(Init, es), DrainClose(g, k)), later).runs, g) == {}
  {
    RunKeepsLeased(Init, es);
    var s := Run(Init, es);
    assert |LiveOn(s.runs, g)| == 0;
    var t := Step(s, DrainClose(g, k));
    LeasesMove(s, DrainClose(g, k));
    DrainedStaysIdle(t, later, g);
  }

  /**
   In force mode the tasks of the graph are cancelled and over first, though their leases may be left; none comes after.
   */
  lemma ForceCloseIsIdle(es: seq<Event>, g: nat, k: nat, later: seq<Event>)
    requires Legal(Init, es) && Enabled(Run(Init, es), ForceClose(g, k))
    requires Legal(Step(Run(Init, es), ForceClose(g, k)), later)
    ensures LiveOn(Run(Step(Run(Init, es), ForceClose(g, k)), later).runs, g) == {}
  {
    RunKeepsLeased(Init, es);
    var s := Run(Init, es);
    LeasesMove(s, ForceClose(g, k));
    DrainedStaysIdle(Step(s, ForceClose(g, k)), later, g);
  }

  // ------------------------------------------------------ one graph at a time

  /** One close at most walks over the graph, and `held` says where it is or where it was cancelled. */
  ghost predicate Tidy(g: Graph) {
    && g.held <= |g.components|
    && (g.closers == map[] || exists k :: g.closers == map[k := g.held])
    && match g.stage
       case Started => true
       case Closed => g.held == 0
       case _ => g.closers == map[]
  }

  ghost predicate Settled(g: Graph) { g.stage.Started? || g.stage.Closed? }

  /** All graphs a close can begin on have been started. */
  ghost predicate Solo(s: State) {
    && (forall g :: g in s.graphs ==> Tidy(s.graphs[g]))
    && (forall g :: g in s.retired || g in s.drainDue || s.active == Some(g) ==> g in s.graphs && Settled(s.graphs[g]))
  }

  predicate Begins(e: Event) {
    e.Discard? || e.DrainClose? || e.ForceClose? || e.ShutdownClose?
  }

  /**
   What keeps closes apart and whole: none begins on a graph that is being closed, and none begins again on a
   started graph of which a cancelled close released a part.
   */
  datatype Discipline = Discipline(apart: bool, whole: bool)

  const Strict := Discipline(true, true)

  predicate Allows(p: Discipline, s: State, e: Event) {
    Begins(e) && e.graph in s.graphs ==>
      && (p.apart ==> s.graphs[e.graph].closers == map[])
      && (p.whole && s.graphs[e.graph].closers == map[] && s.graphs[e.graph].stage.Started? ==>
            s.graphs[e.graph].held == |s.graphs[e.graph].components|)
  }

  predicate Obeys(p: Discipline, s: State, es: seq<Event>)
    requires Legal(s, es)
    decreases |es|
  {
    es == [] || (Allows(p, s, es[0]) && Obeys(p, Step(s, es[0]), es[1..]))
  }

  lemma ActedIsTidy(s: State, e: Event)
    requires Solo(s) && Enabled(s, e) && Allows(Strict, s, e)
    ensures Acted(s, e).Some? ==>
              var (g, graph) := Acted(s, e).value;
              Tidy(graph) && (g in s.graphs && Settled(s.graphs[g]) ==> Settled(graph))
  {
    if e.CloseOne? || e.CloseClears? || e.CloseDone? || e.CloseAborts? {
      var g := s.graphs[e.graph];
      var k :| g.closers == map[k := g.held];
      assert k == e.closer;
      if e.CloseOne? {
        assert g.closers[k := g.held - 1] == map[k := g.held - 1];
      } else if e.CloseDone? || e.CloseAborts? {
        assert g.closers - {k} == map[];
      }
    } else if Begins(e) {
      var g := s.graphs[e.graph];
      assert Closing(g, e.closer).closers == map[e.closer := g.held];
    }
  }

  lemma StepKeepsSolo(s: State, e: Event)
    requires Solo(s) && Enabled(s, e) && Allows(Strict, s, e)
    ensures Solo(Step(s, e))
  {
    ActedIsTidy(s, e);
    var t := Step(s, e);
    ActedIsKnown(s, e);
    ClosableWasStarted(s, e);
    assert t.graphs == match Acted(s, e) case None => s.graphs case Some((g, graph)) => s.graphs[g := graph];
    hide Tidy, Acted, CountsAfter, Allows, Step, Enabled, Settled;
  }

  /** What is active, retired or to be drained was started before the event. */
  lemma ClosableWasStarted(s: State, e: Event)
    requires Solo(s) && Enabled(s, e)
    ensures var t := Step(s, e);
      forall g :: g in t.retired || g in t.drainDue || t.active == Some(g) ==> g in s.graphs && Settled(s.graphs[g])
  {
    hide Acted, CountsAfter, Tidy;
  }

  lemma ActedIsKnown(s: State, e: Event)
    requires Enabled(s, e)
    ensures Acted(s, e).Some? && Acted(s, e).value.0 !in s.graphs ==> e.Prepare?
  {
  }

  // ------------------------------------------------------ reference counts

  /** The acquired occurrences of a component over all graphs. */
  ghost function Holdings(graphs: map<nat, Graph>, x: Component): set<(nat, nat)> {
    set g, i: nat | g in graphs && i < graphs[g].held && i < |graphs[g].components|
      && graphs[g].components[i] == x :: (g, i)
  }

  /** A component is referenced exactly as often as graphs hold it, and runs exactly while one does. */
  ghost predicate Counted(s: State) {
    Exact(s.counts) && forall x :: Refs(s.counts, x) == |Holdings(s.graphs, x)|
  }

  lemma HoldingsStay(graphs: map<nat, Graph>, g: nat, graph: Graph, x: Component)
    requires g in graphs ==> graph.components == graphs[g].components && graph.held == graphs[g].held
    requires g !in graphs ==> graph.held == 0
    ensures Holdings(graphs[g := graph], x) == Holdings(graphs, x)
  {
  }

  lemma HoldingsGrow(graphs: map<nat, Graph>, g: nat, graph: Graph, x: Component)
    requires g in graphs && graph.components == graphs[g].components && graphs[g].held < |graph.components|
    requires graph.held == graphs[g].held + 1
    ensures |Holdings(graphs[g := graph], x)|
            == |Holdings(graphs, x)| + if graph.components[graph.held - 1] == x then 1 else 0
  {
    var k := (g, graphs[g].held);
    assert k !in Holdings(graphs, x);
    assert Holdings(graphs[g := graph], x)
        == if graph.components[graph.held - 1] == x then Holdings(graphs, x) + {k} else Holdings(graphs, x);
  }

  lemma HoldingsShrink(graphs: map<nat, Graph>, g: nat, graph: Graph, x: Component)
    requires g in graphs && graph.components == graphs[g].components && 0 < graphs[g].held <= |graph.components|
    requires graph.held == graphs[g].held - 1
    ensures |Holdings(graphs[g := graph], x)|
            == |Holdings(graphs, x)| - if graph.components[graph.held] == x then 1 else 0
  {
    HoldingsGrow(graphs[g := graph], g, graphs[g], x);
    assert graphs[g := graph][g := graphs[g]] == graphs;
  }

  /** What an event does to the held prefix of the graph it acts on, given that its walk is the only one. */
  lemma ActedHolds(s: State, e: Event)
    requires Solo(s) && Enabled(s, e)
    ensures match Acted(s, e)
            case None => Touched(s, e).None?
            case Some((g, graph)) =>
              && (g !in s.graphs ==> graph.held == 0 && Touched(s, e).None?)
              && (g in s.graphs ==> graph.components == s.graphs[g].components)
              && (g in s.graphs && Touched(s, e).None? ==> graph.held == s.graphs[g].held)
              && (Touched(s, e).Some? ==>
                    && g in s.graphs
                    && (if e.StartOne? then
                          s.graphs[g].held < |graph.components| && graph.held == s.graphs[g].held + 1
                          && Touched(s, e).value == graph.components[graph.held - 1]
                        else
                          0 < s.graphs[g].held <= |graph.components| && graph.held == s.graphs[g].held - 1
                          && Touched(s, e).value == graph.components[graph.held]))
  {
    if e.CloseOne? {
      var g := s.graphs[e.graph];
      var k :| g.closers == map[k := g.held];
      assert k == e.closer;
    }
  }

  lemma StepKeepsCounted(s: State, e: Event)
    requires Solo(s) && Counted(s) && Enabled(s, e)
    ensures Counted(Step(s, e))
  {
    ActedHolds(s, e);
    var t := Step(s, e);
    assert t.counts == CountsAfter(s, e);
    hide Acted, Touched, Holdings, Exact, Acquired, Released, Solo, Enabled;
    match Touched(s, e)
    case None =>
      forall x ensures Holdings(t.graphs, x) == Holdings(s.graphs, x) {
        if Acted(s, e).Some? { HoldingsStay(s.graphs, Acted(s, e).value.0, Acted(s, e).value.1, x); }
      }
    case Some(c) =>
      var (g, graph) := Acted(s, e).value;
      if e.StartOne? {
        AcquiredIsExact(s.counts, c);
        forall x ensures Refs(t.counts, x) == |Holdings(t.graphs, x)| {
          HoldingsGrow(s.graphs, g, graph, x);
        }
      } else {
        ReleasesWhatIsHeld(s, g, c);
        ReleasedIsExact(s.counts, c);
        forall x ensures Refs(t.counts, x) == |Holdings(t.graphs, x)| {
          HoldingsShrink(s.graphs, g, graph, x);
        }
      }
  }

  lemma ReleasesWhatIsHeld(s: State, g: nat, c: Component)
    requires Counted(s) && g in s.graphs && 0 < s.graphs[g].held <= |s.graphs[g].components|
    requires c == s.graphs[g].components[s.graphs[g].held - 1]
    ensures Refs(s.counts, c) > 0
  {
    assert (g, s.graphs[g].held - 1) in Holdings(s.graphs, c);
  }

  lemma {:induction false} RunKeepsCounted(s: State, es: seq<Event>)
    requires Solo(s) && Counted(s) && Legal(s, es) && Obeys(Strict, s, es)
    ensures Solo(Run(s, es)) && Counted(Run(s, es))
    decreases |es|
  {
    hide Solo, Counted, Enabled, Step, Allows;
    if es != [] {
      StepKeepsSolo(s, es[0]);
      StepKeepsCounted(s, es[0]);
      RunKeepsCounted(Step(s, es[0]), es[1..]);
    }
  }

  lemma InitCounts()
    ensures Solo(Init) && Counted(Init)
  {
    assert forall x :: Holdings(Init.graphs, x) == {};
  }

  // ----------------------------------------------------------- main results

  /** Closes kept apart and whole: starts and closes of every component alternate, and counts are exact. */
  lemma SoloClosesAlternate(es: seq<Event>)
    requires Legal(Init, es) && Obeys(Strict, Init, es)
    ensures Alternates(Run(Init, es).counts.log)
    ensures forall x :: Refs(Run(Init, es).counts, x) == |Holdings(Run(Init, es).graphs, x)|
  {
    InitCounts();
    RunKeepsCounted(Init, es);
  }

  /** The components of the started graphs, each as often as it occurs. */
  ghost function StartedHoldings(graphs: map<nat, Graph>, x: Component): set<(nat, nat)> {
    set g, i: nat | g in graphs && graphs[g].stage.Started? && i < |graphs[g].components|
      && graphs[g].components[i] == x :: (g, i)
  }

  /** Nothing is under way: no start, no rollback with components left to release, no close. */
  ghost predicate AtRest(s: State) {
    forall g :: g in s.graphs ==>
      && !s.graphs[g].stage.Starting? && s.graphs[g].closers == map[]
      && (s.graphs[g].stage.RollingBack? ==> s.graphs[g].held == 0)
  }

  /**
   The event does not end a rollback or a close early and leave components behind: a rollback raises at its
   last component only, and a close is cancelled before its first release or after its last.
   */
  predicate Thorough(s: State, e: Event) {
    && (e.RollbackRaises? ==> At(s, e.graph, RollingBack) && s.graphs[e.graph].held == 1)
    && !e.RollbackCancelled?
    && (e.CloseAborts? && e.graph in s.graphs && s.graphs[e.graph].stage.Started?
        && e.closer in s.graphs[e.graph].closers ==>
          s.graphs[e.graph].closers[e.closer] == |s.graphs[e.graph].components|)
  }

  predicate AlwaysThorough(s: State, es: seq<Event>)
    requires Legal(s, es)
    decreases |es|
  {
    es == [] || (Thorough(s, es[0]) && AlwaysThorough(Step(s, es[0]), es[1..]))
  }

  /** Left with components that nobody will release, or started with some of them released. */
  ghost predicate Loose(g: Graph) {
    (g.stage.Leaked? && g.held > 0) || (g.stage.Started? && g.closers == map[] && g.held < |g.components|)
  }

  lemma LooseStays(s: State, e: Event, g: nat)
    requires Solo(s) && Enabled(s, e) && Allows(Strict, s, e) && g in s.graphs && Loose(s.graphs[g])
    ensures g in Step(s, e).graphs && Loose(Step(s, e).graphs[g])
  {
    hide CountsAfter;
  }

  lemma {:induction false} LooseForever(s: State, es: seq<Event>, g: nat)
    requires Solo(s) && Legal(s, es) && Obeys(Strict, s, es) && g in s.graphs && Loose(s.graphs[g])
    ensures g in Run(s, es).graphs && Loose(Run(s, es).graphs[g])
    decreases |es|
  {
    hide Solo, Enabled, Step, Allows, Loose;
    if es != [] {
      StepKeepsSolo(s, es[0]);
      LooseStays(s, es[0], g);
      LooseForever(Step(s, es[0]), es[1..], g);
    }
  }

  /** An early end makes the graph loose, and nothing else makes one. */
  lemma EarlyEndLoosens(s: State, e: Event) returns (g: nat)
    requires Solo(s) && Enabled(s, e) && Allows(Strict, s, e) && !Thorough(s, e)
    ensures g in Step(s, e).graphs && Loose(Step(s, e).graphs[g])
  {
    g := e.graph;
    if e.CloseAborts? {
      var k :| s.graphs[g].closers == map[k := s.graphs[g].held];
      assert s.graphs[g].closers - {k} == map[];
    }
    hide CountsAfter;
  }

  lemma ThoroughActsFirmly(s: State, e: Event)
    requires Solo(s) && Enabled(s, e) && Thorough(s, e) && Acted(s, e).Some?
    requires Acted(s, e).value.0 in s.graphs ==> !Loose(s.graphs[Acted(s, e).value.0])
    ensures !Loose(Acted(s, e).value.1)
  {
    if e.CloseAborts? || e.CloseDone? {
      var k :| s.graphs[e.graph].closers == map[k := s.graphs[e.graph].held];
      assert k == e.closer;
    } else if e.CloseOne? || Begins(e) {
      assert e.closer in Acted(s, e).value.1.closers;
    }
  }

  lemma ThoroughLoosensNothing(s: State, e: Event, g: nat)
    requires Solo(s) && Enabled(s, e) && Thorough(s, e)
    requires forall h :: h in s.graphs ==> !Loose(s.graphs[h])
    ensures g in Step(s, e).graphs ==> !Loose(Step(s, e).graphs[g])
  {
    if Acted(s, e).Some? {
      ThoroughActsFirmly(s, e);
    }
    hide Acted, CountsAfter, Solo, Enabled, Loose, Thorough;
  }

  lemma {:induction false} RunLoosens(s: State, es: seq<Event>)
    requires Solo(s) && Legal(s, es) && Obeys(Strict, s, es) && forall g :: g in s.graphs ==> !Loose(s.graphs[g])
    ensures AlwaysThorough(s, es) <==> forall g :: g in Run(s, es).graphs ==> !Loose(Run(s, es).graphs[g])
    decreases |es|
  {
    hide Solo, Enabled, Step, Allows, Loose, Thorough;
    if es != [] {
      StepKeepsSolo(s, es[0]);
      assert Run(s, es) == Run(Step(s, es[0]), es[1..]);
      if Thorough(s, es[0]) {
        forall g | g in Step(s, es[0]).graphs ensures !Loose(Step(s, es[0]).graphs[g]) {
          ThoroughLoosensNothing(s, es[0], g);
        }
        RunLoosens(Step(s, es[0]), es[1..]);
        assert AlwaysThorough(s, es) == AlwaysThorough(Step(s, es[0]), es[1..]);
      } else {
        var g := EarlyEndLoosens(s, es[0]);
        LooseForever(Step(s, es[0]), es[1..], g);
      }
    }
  }

  /** At rest, what is held is the components of the started graphs exactly when no graph is loose. */
  lemma RestingHoldings(s: State)
    requires Solo(s) && AtRest(s)
    ensures (forall x :: Holdings(s.graphs, x) == StartedHoldings(s.graphs, x))
            <==> forall g :: g in s.graphs ==> !Loose(s.graphs[g])
  {
    if g :| g in s.graphs && Loose(s.graphs[g]) {
      var i := if s.graphs[g].stage.Leaked? then 0 else s.graphs[g].held;
      var x := s.graphs[g].components[i];
      assert (g, i) in Holdings(s.graphs, x) <==> s.graphs[g].stage.Leaked?;
      assert (g, i) in StartedHoldings(s.graphs, x) <==> s.graphs[g].stage.Started?;
    } else {
      forall x ensures Holdings(s.graphs, x) == StartedHoldings(s.graphs, x) {
        RestingHoldsAll(s, x);
      }
    }
  }

  lemma RestingHoldsAll(s: State, x: Component)
    requires Solo(s) && AtRest(s) && forall g :: g in s.graphs ==> !Loose(s.graphs[g])
    ensures Holdings(s.graphs, x) == StartedHoldings(s.graphs, x)
  {
    assert forall g :: g in s.graphs ==>
      s.graphs[g].held == if s.graphs[g].stage.Started? then |s.graphs[g].components| else 0;
  }

  /** After a run, references at rest are those of the started graphs exactly when it was thorough throughout. */
  lemma LeaksAreExact(es: seq<Event>)
    requires Legal(Init, es) && Obeys(Strict, Init, es) && AtRest(Run(Init, es))
    ensures (forall x :: Holdings(Run(Init, es).graphs, x) == StartedHoldings(Run(Init, es).graphs, x))
            <==> AlwaysThorough(Init, es)
  {
    InitCounts();
    RunKeepsCounted(Init, es);
    RunLoosens(Init, es);
    RestingHoldings(Run(Init, es));
  }

  /** A start fails at the third component and a close raises while it is undone: the first stays referenced. */
  lemma RaisingRollbackLeaks() returns (es: seq<Event>, s: State)
    ensures Legal(Init, es) && Obeys(Strict, Init, es) && Run(Init, es) == s && AtRest(s)
    ensures Refs(s.counts, 7) == 1 && StartedHoldings(s.graphs, 7) == {}
  {
    hide Legal, Run, Obeys;
    EmptyRun(Strict);
    es, s := Then(Strict, [], Init, Prepare(0, [7, 8, 9]));
    es, s := Then(Strict, es, s, StartOne(0));
    es, s := Then(Strict, es, s, StartOne(0));
    es, s := Then(Strict, es, s, StartFails(0));
    es, s := Then(Strict, es, s, RollbackRaises(0));
    assert s.graphs == map[0 := Graph([7, 8, 9], Leaked, 1, map[], 0, false)];
  }

  /** A cancelled close leaves a started graph without a component that it counts as its own. */
  lemma CancelledCloseLoses() returns (es: seq<Event>, s: State)
    ensures Legal(Init, es) && Obeys(Strict, Init, es) && Run(Init, es) == s && AtRest(s)
    ensures Refs(s.counts, 7) == 0 && StartedHoldings(s.graphs, 7) == {(0, 0)}
  {
    hide Legal, Run, Obeys;
    es, s := Retired(Strict);
    es, s := Then(Strict, es, s, DrainClose(0, 0));
    es, s := Then(Strict, es, s, CloseOne(0, 0));
    es, s := Then(Strict, es, s, CloseAborts(0, 0));
    assert s.graphs[0] == Graph([7], Started, 0, map[], 0, true);
  }

  /** A run in which no close is cancelled before it clears the flag. */
  predicate Uncancelled(s: State, es: seq<Event>)
    requires Legal(s, es)
    decreases |es|
  {
    es == [] || (!(es[0].CloseAborts? && At(s, es[0].graph, Started)) && Uncancelled(Step(s, es[0]), es[1..]))
  }

  /** A started graph that nobody closes has all its components. */
  ghost predicate Whole(s: State) {
    forall g :: g in s.graphs && s.graphs[g].stage.Started? && s.graphs[g].closers == map[] ==>
      s.graphs[g].held == |s.graphs[g].components|
  }

  lemma ActedIsWhole(s: State, e: Event)
    requires Solo(s) && Whole(s) && Enabled(s, e) && !(e.CloseAborts? && At(s, e.graph, Started))
    ensures Acted(s, e).Some? ==>
              var graph := Acted(s, e).value.1;
              graph.stage.Started? && graph.closers == map[] ==> graph.held == |graph.components|
  {
    if e.CloseOne? {
      assert e.closer in Acted(s, e).value.1.closers;
    } else if Begins(e) {
      assert e.closer in Acted(s, e).value.1.closers;
    }
  }

  lemma StepKeepsWhole(s: State, e: Event)
    requires Solo(s) && Whole(s) && Enabled(s, e) && !(e.CloseAborts? && At(s, e.graph, Started))
    ensures Whole(Step(s, e))
  {
    ActedIsWhole(s, e);
    hide Acted, CountsAfter, Solo, Enabled;
  }

  /** Without such cancellations, closes that do not overlap are whole. */
  lemma {:induction false} UncancelledIsWhole(s: State, es: seq<Event>)
    requires Solo(s) && Whole(s) && Legal(s, es) && Uncancelled(s, es) && Obeys(Discipline(true, false), s, es)
    ensures Obeys(Strict, s, es)
    decreases |es|
  {
    hide Solo, Enabled, Step;
    if es != [] {
      StepKeepsSolo(s, es[0]);
      StepKeepsWhole(s, es[0]);
      UncancelledIsWhole(Step(s, es[0]), es[1..]);
    }
  }

  /** Kept apart and not cancelled midway, closes make every component's starts and closes alternate. */
  lemma UncancelledClosesAlternate(es: seq<Event>)
    requires Legal(Init, es) && Obeys(Discipline(true, false), Init, es) && Uncancelled(Init, es)
    ensures Alternates(Run(Init, es).counts.log)
  {
    InitCounts();
    UncancelledIsWhole(Init, es);
    SoloClosesAlternate(es);
  }

  lemma {:induction false} RunAppends(p: Discipline, s: State, es: seq<Event>, e: Event)
    requires Legal(s, es) && Obeys(p, s, es) && Enabled(Run(s, es), e) && Allows(p, Run(s, es), e)
    ensures Legal(s, es + [e]) && Obeys(p, s, es + [e]) && Run(s, es + [e]) == Step(Run(s, es), e)
    decreases |es|
  {
    hide Enabled, Allows, Step;
    if es != [] {
      assert (es + [e])[1..] == es[1..] + [e];
      RunAppends(p, Step(s, es[0]), es[1..], e);
    } else {
      assert es + [e] == [e] && [e][1..] == [];
    }
  }

  /** One more event at the end of a run from the start. */
  lemma Then(p: Discipline, es: seq<Event>, s: State, e: Event) returns (longer: seq<Event>, t: State)
    requires Legal(Init, es) && Obeys(p, Init, es) && Run(Init, es) == s && Enabled(s, e) && Allows(p, s, e)
    ensures Legal(Init, longer) && Obeys(p, Init, longer) && Run(Init, longer) == t && t == Step(s, e)
  {
    RunAppends(p, Init, es, e);
    longer, t := es + [e], Step(s, e);
  }

  lemma EmptyRun(p: Discipline)
    ensures Legal(Init, []) && Obeys(p, Init, []) && Run(Init, []) == Init
  {
  }

  /** A graph with one component is retired, and its drain is over but has not closed it yet. */
  lemma Retired(p: Discipline) returns (es: seq<Event>, s: State)
    ensures Legal(Init, es) && Obeys(p, Init, es) && Run(Init, es) == s
    ensures 0 in s.graphs && s.graphs[0] == Graph([7], Started, 1, map[], 0, true)
    ensures 0 in s.retired && 0 in s.drainDue && s.runs == map[] && s.shutdown.Open?
    ensures s.counts == Counts(map[7 := 1], [SharedComponents.Start(7)])
    ensures forall g :: g in s.graphs && g != 0 ==> s.graphs[g] == Graph([], Started, 0, map[], 0, false)
  {
    hide Legal, Run, Obeys;
    EmptyRun(p);
    es, s := Then(p, [], Init, Prepare(0, [7]));
    es, s := Then(p, es, s, StartOne(0));
    es, s := Then(p, es, s, StartDone(0));
    es, s := Then(p, es, s, Activate(0));
    es, s := Then(p, es, s, Prepare(1, []));
    es, s := Then(p, es, s, StartDone(1));
    es, s := Then(p, es, s, Swap(1));
  }

  /** A log in which a component is closed twice. */
  lemma ClosedTwice(log: seq<Mark>)
    requires log == [SharedComponents.Start(7), Close(7)] + [Close(7)]
    ensures !Alternates(log)
  {
    var once := [SharedComponents.Start(7), Close(7)];
    LogGrows(once, Close(7));
    LogGrows([SharedComponents.Start(7)], Close(7));
    assert once == [SharedComponents.Start(7)] + [Close(7)];
  }

  /** The runtime shuts down meanwhile: both close the graph, and its component is closed twice. */
  lemma OverlappingClosesBreak(p: Discipline) returns (es: seq<Event>)
    requires !p.apart
    ensures Legal(Init, es) && Obeys(p, Init, es) && !Alternates(Run(Init, es).counts.log)
  {
    hide Legal, Run, Obeys;
    var s: State;
    es, s := Retired(p);
    es, s := Then(p, es, s, ShutdownBegins);
    es, s := Then(p, es, s, ShutdownClose(0, 0));
    es, s := Then(p, es, s, DrainClose(0, 1));
    es, s := Then(p, es, s, CloseOne(0, 0));
    es, s := Then(p, es, s, CloseOne(0, 1));
    ClosedTwice(s.counts.log);
  }

  /**
   The reconfiguration is cancelled while it closes the graph, which keeps its flag and stays retired; the
   shutdown then closes it again from the start.
   */
  lemma RepeatedCloseBreaks(p: Discipline) returns (es: seq<Event>)
    requires !p.whole
    ensures Legal(Init, es) && Obeys(p, Init, es) && !Alternates(Run(Init, es).counts.log)
  {
    hide Legal, Run, Obeys;
    var s: State;
    es, s := Retired(p);
    es, s := Then(p, es, s, DrainClose(0, 0));
    es, s := Then(p, es, s, CloseOne(0, 0));
    es, s := Then(p, es, s, CloseAborts(0, 0));
    assert s.graphs[0].closers == map[];
    es, s := Then(p, es, s, ShutdownBegins);
    es, s := Then(p, es, s, ShutdownClose(0, 0));
    es, s := Then(p, es, s, CloseOne(0, 0));
    ClosedTwice(s.counts.log);
  }

  /**
   Components start and close in alternation over all runs exactly when closes of one graph never overlap and
   none begins again after a cancelled one released a part.
   */
  lemma SoloIsExact(p: Discipline)
    ensures p == Strict <==> forall es :: Legal(Init, es) && Obeys(p, Init, es) ==> Alternates(Run(Init, es).counts.log)
  {
    if p == Strict {
      forall es | Legal(Init, es) && Obeys(p, Init, es) ensures Alternates(Run(Init, es).counts.log) {
        SoloClosesAlternate(es);
      }
    } else if !p.apart {
      var es := OverlappingClosesBreak(p);
    } else {
      var es := RepeatedCloseBreaks(p);
    }
  }
}

/** The objects behind the protocol: a graph's leases, and the table of component references. */
module ModuleGraphs {
  import opened Prelude
  import opened SharedComponents

  class ActiveGraph {
    var leases: nat
    var draining: bool
    var drained: bool

    constructor ()
      ensures leases == 0 && !draining && drained
    {
      leases, draining, drained := 0, false, true;
    }

    /** A draining graph with no lease left is drained. */
    predicate Valid()
      reads this
    {
      drained <==> leases == 0
    }

    method Acquire() returns (ok: bool)
      requires Valid()
      modifies this
      ensures Valid() && ok == !old(draining) && draining == old(draining)
      ensures leases == if ok then old(leases) + 1 else old(leases)
    {
      if draining {
        return false;
      }
      leases := leases + 1;
      drained := false;
      return true;
    }

    method Release()
      requires Valid()
      modifies this
      ensures Valid() && draining == old(draining)
      ensures leases == if old(leases) < 1 then 0 else old(leases) - 1
    {
      if leases < 1 {
        return;
      }
      leases := leases - 1;
      if leases == 0 {
        drained := true;
      }
    }

    method Retire()
      requires Valid()
      modifies this
      ensures Valid() && draining && leases == old(leases)
    {
      draining := true;
      if leases == 0 {
        drained := true;
      }
    }
  }

  function AcquiredAll(c: Counts, xs: seq<Component>): Counts
    decreases |xs|
  {
    if xs == [] then c else Acquired(AcquiredAll(c, xs[..|xs| - 1]), xs[|xs| - 1])
  }

  /** From the last component to the first. */
  function ReleasedAll(c: Counts, xs: seq<Component>): Counts
    decreases |xs|
  {
    if xs == [] then c else ReleasedAll(Released(c, xs[|xs| - 1]), xs[..|xs| - 1])
  }

  function Count(xs: seq<Component>, y: Component): nat
    decreases |xs|
  {
    if xs == [] then 0 else Count(xs[..|xs| - 1], y) + if xs[|xs| - 1] == y then 1 else 0
  }

  lemma {:induction false} AcquiredAllIsExact(c: Counts, xs: seq<Component>)
    requires Exact(c)
    ensures Exact(AcquiredAll(c, xs)) && forall y :: Refs(AcquiredAll(c, xs), y) == Refs(c, y) + Count(xs, y)
    decreases |xs|
  {
    hide Exact;
    if xs != [] {
      AcquiredAllIsExact(c, xs[..|xs| - 1]);
      AcquiredIsExact(AcquiredAll(c, xs[..|xs| - 1]), xs[|xs| - 1]);
    }
  }

  lemma {:induction false} ReleasedAllIsExact(b: Counts, xs: seq<Component>, c: Counts)
    requires Exact(b) && forall y :: Refs(b, y) == Refs(c, y) + Count(xs, y)
    ensures Exact(ReleasedAll(b, xs)) && forall y :: Refs(ReleasedAll(b, xs), y) == Refs(c, y)
    decreases |xs|
  {
    hide Exact;
    if xs != [] {
      var x := xs[|xs| - 1];
      assert Refs(b, x) > 0;
      ReleasedIsExact(b, x);
      ReleasedAllIsExact(Released(b, x), xs[..|xs| - 1], c);
    }
  }

  /** Starting components and then closing them leaves every count as it was, and alternates throughout. */
  lemma ReleaseUndoesAcquire(c: Counts, xs: seq<Component>)
    requires Exact(c)
    ensures Exact(ReleasedAll(AcquiredAll(c, xs), xs))
    ensures forall y :: Refs(ReleasedAll(AcquiredAll(c, xs), xs), y) == Refs(c, y)
  {
    AcquiredAllIsExact(c, xs);
    ReleasedAllIsExact(AcquiredAll(c, xs), xs, c);
  }

  class ComponentTable {
    var counts: Counts

    constructor ()
      ensures counts == Counts(map[], [])
    {
      counts := Counts(map[], []);
    }

    method Acquire(x: Component)
      modifies this
      ensures counts == Acquired(old(counts), x)
    {
      var references := Refs(counts, x);
      if references == 0 {
        counts := counts.(log := counts.log + [Start(x)]);
      }
      counts := counts.(refs := counts.refs[x := references + 1]);
    }

    method Release(x: Component)
      modifies this
      ensures counts == Released(old(counts), x)
    {
      var references := Refs(counts, x);
      if references > 1 {
        counts := counts.(refs := counts.refs[x := references - 1]);
        return;
      }
      counts := Counts(counts.refs - {x}, counts.log + [Close(x)]);
    }

    /** `_start_graph_components`, where the component at `failAt`, if there is one, refuses to start. */
    method StartComponents(xs: seq<Component>, failAt: nat) returns (started: bool)
      requires Exact(counts)
      modifies this
      ensures started == (failAt >= |xs|) && Exact(counts)
      ensures started ==> counts == AcquiredAll(old(counts), xs)
      ensures !started ==> forall y :: Refs(counts, y) == Refs(old(counts), y)
    {
      ghost var before := counts;
      var i := 0;
      while i < |xs| && i != failAt
        invariant i <= |xs| && i <= failAt && counts == AcquiredAll(before, xs[..i])
      {
        Acquire(xs[i]);
        assert xs[..i + 1][..i] == xs[..i];
        i := i + 1;
      }
      if i == |xs| {
        assert xs[..i] == xs;
        AcquiredAllIsExact(before, xs);
        return true;
      }
      ReleaseUndoesAcquire(before, xs[..i]);
      CloseComponents(xs[..i]);
      return false;
    }

    method CloseComponents(xs: seq<Component>)
      modifies this
      ensures counts == ReleasedAll(old(counts), xs)
    {
      ghost var before := counts;
      var i := |xs|;
      assert xs[..i] == xs;
      while i > 0
        invariant i <= |xs| && ReleasedAll(counts, xs[..i]) == ReleasedAll(before, xs)
      {
        i := i - 1;
        assert xs[..i + 1][..i] == xs[..i];
        Release(xs[i]);
      }
    }
  }
}
