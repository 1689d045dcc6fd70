/** Dependency graphs: when an order exists, and an algorithm that finds one exactly then. */
module DependencyOrder {
  import opened Prelude

  /** Each node's dependencies, all of them nodes. */
  type Graph = map<string, set<string>>

  predicate Wf(g: Graph) {
    forall m :: m in g ==> g[m] <= g.Keys
  }

  /** Each element of the walk depends on the next one. */
  predicate Walk(g: Graph, w: seq<string>) {
    && w != [] && (forall i :: 0 <= i < |w| ==> w[i] in g)
    && forall i :: 0 <= i < |w| - 1 ==> w[i + 1] in g[w[i]]
  }

  predicate Cycle(g: Graph, w: seq<string>) {
    |w| >= 2 && Walk(g, w) && w[0] == w[|w| - 1]
  }

  ghost predicate Acyclic(g: Graph) {
    forall w :: !Cycle(g, w)
  }

  /** Every node once, after all its dependencies. */
  ghost predicate Ordered(g: Graph, order: seq<string>) {
    && (forall i, j :: 0 <= i < j < |order| ==> order[i] != order[j])
    && (forall m :: m in order <==> m in g)
    && (forall i :: 0 <= i < |order| ==> order[i] in g && forall d :: d in g[order[i]] ==> d in order[..i])
  }

  /** Dependencies come strictly earlier. */
  lemma DependencyIsEarlier(g: Graph, order: seq<string>, i: nat, d: string) returns (j: nat)
    requires Ordered(g, order) && i < |order| && d in g[order[i]]
    ensures j < i && order[j] == d
  {
    assert d in order[..i];
    j :| 0 <= j < i && order[..i][j] == d;
  }

  lemma {:induction false} WalksDescend(g: Graph, order: seq<string>, w: seq<string>, i: nat) returns (j: nat)
    requires Ordered(g, order) && Walk(g, w) && i < |order| && order[i] == w[0]
    ensures j < |order| && order[j] == w[|w| - 1] && j <= i && (|w| > 1 ==> j < i)
    decreases |w|
  {
    if |w| == 1 {
      j := i;
    } else {
      var k := DependencyIsEarlier(g, order, i, w[1]);
      var rest := w[1..];
      assert Walk(g, rest);
      j := WalksDescend(g, order, rest, k);
    }
  }

  lemma OrderedIsAcyclic(g: Graph, order: seq<string>)
    requires Ordered(g, order)
    ensures Acyclic(g)
  {
    forall w ensures !Cycle(g, w) {
      if Cycle(g, w) {
        var i :| 0 <= i < |order| && order[i] == w[0];
        var j := WalksDescend(g, order, w, i);
      }
    }
  }

  /** Nodes each of which depends on another of them. */
  ghost predicate Stuck(g: Graph, stuck: set<string>) {
    stuck <= g.Keys && forall m :: m in stuck ==> g[m] * stuck != {}
  }

  lemma StuckNext(g: Graph, stuck: set<string>, m: string) returns (d: string)
    requires Stuck(g, stuck) && m in stuck
    ensures m in g && d in g[m] && d in stuck && d in g
  {
    d :| d in g[m] * stuck;
  }

  predicate Distinct(w: seq<string>) {
    forall i, j :: 0 <= i < j < |w| ==> w[i] != w[j]
  }

  /** Stuck nodes lie on a cycle: a walk among them must come back. */
  lemma {:induction false} StuckIsCyclic(g: Graph, stuck: set<string>, w: seq<string>) returns (cycle: seq<string>)
    requires Stuck(g, stuck) && Walk(g, w) && Distinct(w) && forall i :: 0 <= i < |w| ==> w[i] in stuck
    ensures Cycle(g, cycle)
    decreases |stuck| + 1 - |w|
  {
    hide Stuck;
    var d := StuckNext(g, stuck, w[|w| - 1]);
    if d in w {
      var k :| 0 <= k < |w| && w[k] == d;
      cycle := w[k..] + [d];
      WalkCloses(g, w, k, d);
    } else {
      hide Walk, Cycle;
      DistinctFit(w, stuck);
      WalkGrows(g, w, d);
      cycle := StuckIsCyclic(g, stuck, w + [d]);
    }
  }

  lemma WalkGrows(g: Graph, w: seq<string>, d: string)
    requires Walk(g, w) && d in g && d in g[w[|w| - 1]] && d !in w && Distinct(w)
    ensures Walk(g, w + [d]) && Distinct(w + [d])
  {
  }

  lemma WalkCloses(g: Graph, w: seq<string>, k: nat, d: string)
    requires Walk(g, w) && k < |w| && w[k] == d && d in g[w[|w| - 1]]
    ensures Cycle(g, w[k..] + [d])
  {
    var v := w[k..] + [d];
    assert forall i :: 0 <= i < |v| ==> v[i] == if i < |v| - 1 then w[k + i] else d;
    assert v[0] == d;
  }

  lemma {:induction false} DistinctFit(w: seq<string>, s: set<string>)
    requires Distinct(w) && forall i :: 0 <= i < |w| ==> w[i] in s
    ensures |w| <= |s|
    decreases |w|
  {
    if w != [] {
      DistinctFit(w[1..], s - {w[0]});
    }
  }

  lemma IndependentOfLess(deps: set<string>, left: set<string>, still: set<string>)
    requires still <= left && deps * left == {}
    ensures deps * still == {}
  {
    assert deps * still <= deps * left;
  }

  /** Append a layer of nodes whose dependencies are all listed. */
  method TakeLayer(g: Graph, listed: seq<string>, left: set<string>, layer: set<string>) returns (more: seq<string>)
    requires Wf(g) && Prefix(g, listed, left) && layer <= left && forall m :: m in layer ==> m in g && g[m] * left == {}
    ensures Prefix(g, more, left - layer)
  {
    hide Prefix, Wf;
    more := listed;
    var ready := layer;
    assert left - (layer - ready) == left;
    ghost var still := left;
    while ready != {}
      invariant ready <= layer && still == left - (layer - ready) && Prefix(g, more, still)
      decreases |ready|
    {
      var m :| m in ready;
      IndependentOfLess(g[m], left, still);
      PrefixGrows(g, more, still, m);
      still := still - {m};
      ready := ready - {m};
      more := more + [m];
    }
    assert still == left - layer;
  }

  function ReadyOf(g: Graph, left: set<string>): set<string>
    requires left <= g.Keys
  {
    set m | m in left && g[m] * left == {}
  }

  /** Layer after layer: everything whose dependencies are done is ready; if nothing is, there is a cycle. */
  method StaticOrder(g: Graph) returns (order: Option<seq<string>>)
    requires Wf(g)
    ensures order.Some? ==> Ordered(g, order.value)
    ensures order.Some? <==> Acyclic(g)
  {
    hide Prefix, Ordered, Acyclic, Stuck, Wf, Walk, Distinct;
    var listed: seq<string> := [];
    var left := g.Keys;
    NothingListed(g);
    while left != {}
      invariant left <= g.Keys && Prefix(g, listed, left)
      decreases |left|
    {
      var ready := ReadyOf(g, left);
      if ready == {} {
        var m :| m in left;
        NoneReady(g, left, m);
        ghost var cycle := StuckIsCyclic(g, left, [m]);
        CycleRefutes(g, cycle);
        return None;
      }
      listed := TakeLayer(g, listed, left, ready);
      left := left - ready;
    }
    AllListed(g, listed);
    OrderedIsAcyclic(g, listed);
    return Some(listed);
  }

  lemma CycleRefutes(g: Graph, w: seq<string>)
    requires Cycle(g, w)
    ensures !Acyclic(g)
  {
  }

  lemma NothingListed(g: Graph)
    ensures Prefix(g, [], g.Keys)
  {
  }

  lemma AllListed(g: Graph, listed: seq<string>)
    requires Prefix(g, listed, {})
    ensures Ordered(g, listed)
  {
  }

  lemma NoneReady(g: Graph, left: set<string>, m: string)
    requires m in left && left <= g.Keys && ReadyOf(g, left) == {}
    ensures Stuck(g, left) && Walk(g, [m]) && Distinct([m])
  {
    forall x | x in left ensures g[x] * left != {} {
      assert x !in ReadyOf(g, left);
    }
  }

  /** What has been listed is ordered, and is everything but what is left. */
  ghost predicate Prefix(g: Graph, listed: seq<string>, left: set<string>) {
    && (forall i, j :: 0 <= i < j < |listed| ==> listed[i] != listed[j])
    && (forall m :: m in listed <==> m in g && m !in left)
    && (forall i :: 0 <= i < |listed| ==> listed[i] in g && forall d :: d in g[listed[i]] ==> d in listed[..i])
  }

  lemma PrefixGrows(g: Graph, listed: seq<string>, left: set<string>, m: string)
    requires Wf(g) && Prefix(g, listed, left) && m in left && m in g && g[m] * left == {}
    ensures Prefix(g, listed + [m], left - {m})
  {
    var more := listed + [m];
    assert forall i :: 0 <= i < |listed| ==> more[..i] == listed[..i];
    assert more[..|listed|] == listed;
    forall d | d in g[m] ensures d in listed {
      assert d in g && d !in g[m] * left;
    }
  }
}

/** Resolution of a profile against the installed modules and the host's services. */
module ModuleResolution {
  import opened Prelude
  import opened DependencyOrder

  type Service = string

  datatype Config = Config(surfaces: set<string>, options: string)

  /** `needs` and `accepts` depend on the configuration: required services, and validation without an error. */
  datatype Descriptor = Descriptor(
    dependsOn: set<string>, offers: set<Service>, surfaces: set<string>,
    needs: string -> set<Service>, accepts: Config -> bool)

  type Catalog = map<string, Descriptor>

  type Profile = map<string, Config>

  // --------------------------------------------------------- specification

  predicate Installed(c: Catalog, p: Profile) {
    p.Keys <= c.Keys
  }

  function Needs(c: Catalog, p: Profile, m: string): set<Service>
    requires Installed(c, p) && m in p
  {
    c[m].needs(p[m].options)
  }

  function Providers(c: Catalog, p: Profile, k: Service): set<string>
    requires Installed(c, p)
  {
    set m | m in p && k in c[m].offers
  }

  /**
   Required modules are selected, surfaces supported, the configuration valid, and each needed service is the host's or
   has one provider.
   */
  ghost predicate Met(c: Catalog, p: Profile, host: set<Service>, m: string)
    requires Installed(c, p) && m in p
  {
    && c[m].dependsOn <= p.Keys && p[m].surfaces <= c[m].surfaces && c[m].accepts(p[m])
    && forall k :: k in Needs(c, p, m) ==> Served(c, p, host, k)
  }

  /**
   A module depends on what it requires and on the provider of each service that neither the host nor itself provides.
   */
  function Dependencies(c: Catalog, p: Profile, host: set<Service>, m: string): set<string>
    requires Installed(c, p) && m in p
  {
    c[m].dependsOn + set k, d | k in Needs(c, p, m) && k !in host && d in Providers(c, p, k) && d != m :: d
  }

  function DependencyGraph(c: Catalog, p: Profile, host: set<Service>): Graph
    requires Installed(c, p)
  {
    map m | m in p :: Dependencies(c, p, host, m)
  }

  ghost predicate Resolvable(c: Catalog, p: Profile, host: set<Service>) {
    && Installed(c, p) && (forall m :: m in p ==> Met(c, p, host, m)) && Acyclic(DependencyGraph(c, p, host))
  }

  /** Among the selected modules exactly one offers the service. */
  ghost predicate OneOffers(c: Catalog, p: Profile, k: Service) {
    exists d :: Offers(c, p, k, d) && forall e :: Offers(c, p, k, e) ==> e == d
  }

  predicate Offers(c: Catalog, p: Profile, k: Service, d: string) {
    d in p && d in c && k in c[d].offers
  }

  lemma ExactlyOne(s: set<string>, d: string)
    ensures |s| == 1 && d in s ==> forall e :: e in s ==> e == d
    ensures d in s && (forall e :: e in s ==> e == d) ==> |s| == 1
  {
    if |s| == 1 && d in s { SoleElement(s, d); }
    if d in s && forall e :: e in s ==> e == d { assert s == {d}; }
  }

  lemma OneProvider(c: Catalog, p: Profile, k: Service)
    requires Installed(c, p)
    ensures |Providers(c, p, k)| == 1 <==> OneOffers(c, p, k)
  {
    hide Providers, Installed, OneOffers;
    if OneOffers(c, p, k) {
      OffersAlone(c, p, k);
    }
    if |Providers(c, p, k)| == 1 {
      AloneOffers(c, p, k);
    }
  }

  lemma AloneOffers(c: Catalog, p: Profile, k: Service)
    requires Installed(c, p) && |Providers(c, p, k)| == 1
    ensures OneOffers(c, p, k)
  {
    ProvidersOffer(c, p, k);
    var d :| d in Providers(c, p, k);
    ExactlyOne(Providers(c, p, k), d);
    hide Providers, Installed, Offers;
    assert Offers(c, p, k, d);
  }

  lemma OffersAlone(c: Catalog, p: Profile, k: Service)
    requires Installed(c, p) && OneOffers(c, p, k)
    ensures |Providers(c, p, k)| == 1
  {
    ProvidersOffer(c, p, k);
    var d :| Offers(c, p, k, d) && forall e :: Offers(c, p, k, e) ==> e == d;
    hide Providers, Installed, Offers;
    ExactlyOne(Providers(c, p, k), d);
  }

  lemma ProvidersOffer(c: Catalog, p: Profile, k: Service)
    requires Installed(c, p)
    ensures forall d :: d in Providers(c, p, k) <==> Offers(c, p, k, d)
  {
  }

  /**
   A profile can be resolved exactly when all it selects is installed, with its required modules, within its
   surfaces and a valid configuration, every needed service comes from the host or from exactly one selected
   module, and no chain of dependencies closes.
   */
  lemma ResolvableIsExact(c: Catalog, p: Profile, host: set<Service>)
    ensures Resolvable(c, p, host)
            <==> && (forall m :: m in p ==> m in c)
                 && (forall m, d :: m in p && d in c[m].dependsOn ==> d in p)
                 && (forall m, x :: m in p && x in p[m].surfaces ==> x in c[m].surfaces)
                 && (forall m :: m in p ==> c[m].accepts(p[m]))
                 && (forall m, k :: m in p && k in c[m].needs(p[m].options) ==> k in host || OneOffers(c, p, k))
                 && Acyclic(DependencyGraph(c, p, host))
  {
    if Installed(c, p) {
      forall m | m in p
        ensures Met(c, p, host, m)
                <==> && (forall d :: d in c[m].dependsOn ==> d in p)
                     && (forall x :: x in p[m].surfaces ==> x in c[m].surfaces) && c[m].accepts(p[m])
                     && (forall k :: k in c[m].needs(p[m].options) ==> k in host || OneOffers(c, p, k))
      {
        forall k | k in c[m].needs(p[m].options) ensures Served(c, p, host, k) <==> k in host || OneOffers(c, p, k) {
          OneProvider(c, p, k);
        }
      }
    }
    hide Acyclic, DependencyGraph, OneOffers;
  }

  /** What a module comes after: the modules it requires, and others that offer what it needs and the host does not. */
  lemma DependenciesAreExact(c: Catalog, p: Profile, host: set<Service>, m: string, d: string)
    requires Installed(c, p) && m in p
    ensures DependencyGraph(c, p, host).Keys == p.Keys
    ensures d in DependencyGraph(c, p, host)[m] <==> d in c[m].dependsOn || (d != m && Supplies(c, p, host, m, d))
  {
    assert DependencyGraph(c, p, host)[m] == Dependencies(c, p, host, m);
    if Supplies(c, p, host, m, d) {
      var k :| k in c[m].needs(p[m].options) && k !in host && k in c[d].offers;
      assert k in Needs(c, p, m) && d in Providers(c, p, k);
    }
    hide DependencyGraph;
  }

  /** A selected module that offers something the other needs and the host does not have. */
  ghost predicate Supplies(c: Catalog, p: Profile, host: set<Service>, m: string, d: string)
    requires m in p && m in c
  {
    d in p && d in c && exists k :: k in c[m].needs(p[m].options) && k !in host && k in c[d].offers
  }

  // ------------------------------------------------------------- algorithm

  /** One module's services, added to the table of providers. */
  method AddProvider(before: map<Service, seq<string>>, offered: set<Service>, m: string)
      returns (after: map<Service, seq<string>>)
    ensures forall k :: k in after <==> k in before || k in offered
    ensures forall k :: k in after ==> after[k] == Extended(before, offered, m, k)
  {
    after := before;
    var keys := offered;
    while keys != {}
      invariant keys <= offered
      invariant forall k :: k in after <==> k in before || k in offered - keys
      invariant forall k :: k in after ==> after[k] == Extended(before, offered - keys, m, k)
      decreases |keys|
    {
      var k :| k in keys;
      keys := keys - {k};
      after := after[k := (if k in after then after[k] else []) + [m]];
    }
  }

  /** What `setdefault(...).append(...)` leaves under a key. */
  function Extended(before: map<Service, seq<string>>, offered: set<Service>, m: string, k: Service): seq<string> {
    (if k in before then before[k] else []) + if k in offered then [m] else []
  }

  /** The table is right for the modules that are no longer left. */
  ghost predicate Tabled(c: Catalog, p: Profile, providers: map<Service, seq<string>>, left: set<string>)
    requires Installed(c, p)
  {
    forall k :: Lists(if k in providers then providers[k] else [], Providers(c, p, k) - left)
  }

  method CollectProviders(c: Catalog, p: Profile) returns (providers: map<Service, seq<string>>)
    requires Installed(c, p)
    ensures Tabled(c, p, providers, {})
  {
    hide Tabled;
    providers := map[];
    var left := p.Keys;
    EmptyTable(c, p);
    while left != {}
      invariant left <= p.Keys && Tabled(c, p, providers, left)
      decreases |left|
    {
      var m :| m in left;
      var more := AddProvider(providers, c[m].offers, m);
      TableGrows(c, p, providers, more, left, m);
      left := left - {m};
      providers := more;
    }
  }

  lemma EmptyTable(c: Catalog, p: Profile)
    requires Installed(c, p)
    ensures Tabled(c, p, map[], p.Keys)
  {
    assert forall k :: Providers(c, p, k) - p.Keys == {};
  }

  lemma TableGrows(c: Catalog, p: Profile, before: map<Service, seq<string>>, after: map<Service, seq<string>>,
      left: set<string>, m: string)
    requires Installed(c, p) && m in p && m in left && Tabled(c, p, before, left)
    requires forall k :: k in after <==> k in before || k in c[m].offers
    requires forall k :: k in after ==> after[k] == Extended(before, c[m].offers, m, k)
    ensures Tabled(c, p, after, left - {m})
  {
    hide Providers, Lists;
    forall k ensures Lists(if k in after then after[k] else [], Providers(c, p, k) - (left - {m})) {
      var was := if k in before then before[k] else [];
      assert Lists(was, Providers(c, p, k) - left);
      OneMoreProvider(c, p, left - {m}, m, k);
      assert left - {m} + {m} == left;
      if k in c[m].offers {
        ListsGrow(was, Providers(c, p, k) - left, m);
      } else {
        assert was + [] == was;
      }
    }
  }

  /** The list names each element of the set once. */
  ghost predicate Lists(xs: seq<string>, s: set<string>) {
    && (forall i, j :: 0 <= i < j < |xs| ==> xs[i] != xs[j]) && (forall x :: x in xs <==> x in s)
  }

  lemma ListsGrow(xs: seq<string>, s: set<string>, x: string)
    requires Lists(xs, s) && x !in s
    ensures Lists(xs + [x], s + {x})
  {
  }

  lemma OneMoreProvider(c: Catalog, p: Profile, left: set<string>, m: string, k: Service)
    requires Installed(c, p) && m in p && m !in left
    ensures Providers(c, p, k) - left
            == if k in c[m].offers then (Providers(c, p, k) - (left + {m})) + {m} else Providers(c, p, k) - (left + {m})
  {
  }

  lemma {:induction false} ListSize(xs: seq<string>, s: set<string>)
    requires Lists(xs, s)
    ensures |xs| == |s|
    decreases |xs|
  {
    if xs != [] {
      assert Lists(xs[1..], s - {xs[0]}) by {
        assert forall x :: x in xs[1..] <==> x in xs && x != xs[0];
      }
      ListSize(xs[1..], s - {xs[0]});
    } else {
      assert s == {};
    }
  }

  ghost predicate Served(c: Catalog, p: Profile, host: set<Service>, k: Service)
    requires Installed(c, p)
  {
    k !in host ==> |Providers(c, p, k)| == 1
  }

  /** The checks of one module, and its dependencies if it passes them. */
  method Examine(c: Catalog, p: Profile, host: set<Service>, providers: map<Service, seq<string>>, m: string)
      returns (dependencies: Option<set<string>>)
    requires Installed(c, p) && m in p && Tabled(c, p, providers, {})
    ensures dependencies.Some? <==> Met(c, p, host, m)
    ensures dependencies.Some? ==> dependencies.value == Dependencies(c, p, host, m)
  {
    hide Found, Providers, Lists, Tabled;
    if !(c[m].dependsOn <= p.Keys) || !(p[m].surfaces <= c[m].surfaces) {
      return None;
    }
    var needs := c[m].needs(p[m].options);
    if k :| k in needs && k !in host && k !in providers {
      UnlistedIsUnserved(c, p, host, providers, k);
      return None;
    }
    if !c[m].accepts(p[m]) {
      return None;
    }
    var found := c[m].dependsOn;
    var left := needs;
    FoundNothing(c, p, host, m);
    while left != {}
      invariant left <= needs == Needs(c, p, m)
      invariant forall k :: k in needs && k !in left ==> Served(c, p, host, k)
      invariant found == c[m].dependsOn + Found(c, p, host, m, left)
      decreases |left|
    {
      var k :| k in left;
      FoundOneMore(c, p, host, m, left, k);
      left := left - {k};
      if k !in host {
        var candidates := if k in providers then providers[k] else [];
        CandidatesCount(c, p, providers, k);
        if |candidates| != 1 {
          return None;
        }
        if candidates[0] != m {
          found := found + {candidates[0]};
        }
      }
    }
    FoundAll(c, p, host, m);
    return Some(found);
  }

  lemma UnlistedIsUnserved(c: Catalog, p: Profile, host: set<Service>, providers: map<Service, seq<string>>, k: Service)
    requires Installed(c, p) && Tabled(c, p, providers, {}) && k !in providers && k !in host
    ensures !Served(c, p, host, k) && |Providers(c, p, k)| == 0
  {
    CandidatesCount(c, p, providers, k);
  }

  lemma CandidatesCount(c: Catalog, p: Profile, providers: map<Service, seq<string>>, k: Service)
    requires Installed(c, p) && Tabled(c, p, providers, {})
    ensures var candidates := if k in providers then providers[k] else [];
      |candidates| == |Providers(c, p, k)| && (|candidates| == 1 ==> Providers(c, p, k) == {candidates[0]})
  {
    var candidates := if k in providers then providers[k] else [];
    var all := Providers(c, p, k);
    assert Lists(candidates, all - {});
    assert all - {} == all;
    ListSize(candidates, all);
    if |candidates| == 1 {
      assert candidates[0] in all;
      SoleElement(all, candidates[0]);
    }
  }

  lemma FoundNothing(c: Catalog, p: Profile, host: set<Service>, m: string)
    requires Installed(c, p) && m in p
    ensures Found(c, p, host, m, Needs(c, p, m)) == {}
  {
  }

  lemma FoundAll(c: Catalog, p: Profile, host: set<Service>, m: string)
    requires Installed(c, p) && m in p
    ensures c[m].dependsOn + Found(c, p, host, m, {}) == Dependencies(c, p, host, m)
  {
  }

  /** The providers found for the needs that are no longer left. */
  function Found(c: Catalog, p: Profile, host: set<Service>, m: string, left: set<Service>): set<string>
    requires Installed(c, p) && m in p
  {
    set k, d | k in Needs(c, p, m) && k !in left && k !in host && d in Providers(c, p, k) && d != m :: d
  }

  lemma FoundOneMore(c: Catalog, p: Profile, host: set<Service>, m: string, left: set<Service>, k: Service)
    requires Installed(c, p) && m in p && k in left && left <= Needs(c, p, m)
    ensures Found(c, p, host, m, left - {k})
            == Found(c, p, host, m, left) + if k in host then {} else Providers(c, p, k) - {m}
  {
  }

  /**
   Resolution succeeds exactly when everything selected is installed, met and free of cycles, and then
   lists every module once, after everything it depends on.
   */
  method Resolve(c: Catalog, p: Profile, host: set<Service>) returns (order: Option<seq<string>>)
    ensures order.Some? <==> Resolvable(c, p, host)
    ensures order.Some? ==> Ordered(DependencyGraph(c, p, host), order.value)
  {
    hide Met, Dependencies, Acyclic, Ordered, Tabled, Wf;
    if !(p.Keys <= c.Keys) {
      return None;
    }
    var providers := CollectProviders(c, p);
    var graph: Graph := map[];
    var left := p.Keys;
    while left != {}
      invariant left <= p.Keys && graph.Keys == p.Keys - left
      invariant forall m :: m in graph ==> Met(c, p, host, m) && graph[m] == Dependencies(c, p, host, m)
      decreases |left|
    {
      var m :| m in left;
      var dependencies := Examine(c, p, host, providers, m);
      if dependencies == None {
        return None;
      }
      graph := graph[m := dependencies.value];
      left := left - {m};
    }
    assert graph == DependencyGraph(c, p, host);
    MetIsWf(c, p, host);
    order := StaticOrder(graph);
  }

  lemma MetIsWf(c: Catalog, p: Profile, host: set<Service>)
    requires Installed(c, p) && forall m :: m in p ==> Met(c, p, host, m)
    ensures Wf(DependencyGraph(c, p, host))
  {
    forall m | m in p ensures Dependencies(c, p, host, m) <= p.Keys {
      assert Met(c, p, host, m);
    }
  }

  /**
   In a resolved order each module comes after its required modules and the sole provider of each service it lacks.
   */
  lemma ResolvedOrderServes(c: Catalog, p: Profile, host: set<Service>, order: seq<string>, i: nat, k: Service)
    requires Resolvable(c, p, host) && Ordered(DependencyGraph(c, p, host), order) && i < |order|
    ensures order[i] in p && forall d :: d in c[order[i]].dependsOn ==> d in order[..i]
    ensures k in Needs(c, p, order[i]) && k !in host ==>
              exists d :: Providers(c, p, k) == {d} && (d == order[i] || d in order[..i])
  {
    var m := order[i];
    var g := DependencyGraph(c, p, host);
    assert m in g && g[m] == Dependencies(c, p, host, m);
    if k in Needs(c, p, m) && k !in host {
      assert Met(c, p, host, m) && Served(c, p, host, k);
      var d :| d in Providers(c, p, k);
      SoleElement(Providers(c, p, k), d);
      if d != m { assert d in g[m]; }
    }
  }

  lemma SoleElement(s: set<string>, x: string)
    requires |s| == 1 && x in s
    ensures s == {x}
  {
    assert |s - {x}| == 0;
  }

  /** A module that requires itself is a cycle of its own. */
  lemma SelfRequirementIsRefused(c: Catalog, p: Profile, host: set<Service>, m: string)
    requires Installed(c, p) && m in p && m in c[m].dependsOn
    ensures !Resolvable(c, p, host)
  {
    if forall x :: x in p ==> Met(c, p, host, x) {
      assert Cycle(DependencyGraph(c, p, host), [m, m]);
    }
  }
}
