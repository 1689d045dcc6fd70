/** Capacity tiers: how many children may hold a slot at each depth. */
module SlotTiers {

  function Halved(c: nat, times: nat): nat {
    if times == 0 then c else Halved(c, times - 1) / 2
  }

  /** `max(1, child_concurrency >> (depth - 1))`. */
  function Capacity(c: nat, depth: nat): (n: nat)
    requires depth >= 1
    ensures n >= 1
  {
    if Halved(c, depth - 1) > 1 then Halved(c, depth - 1) else 1
  }

  function Doubled(times: nat): nat {
    if times == 0 then 1 else 2 * Doubled(times - 1)
  }

  lemma Halving(q: nat, r: nat, d: nat, c: nat)
    requires r <= 1 && (2 * q + r) * d <= c < (2 * q + r + 1) * d
    ensures q * (2 * d) <= c < (q + 1) * (2 * d)
  {
    assert (2 * q + r) * d == q * (2 * d) + r * d;
    assert (q + 1) * (2 * d) == q * (2 * d) + 2 * d;
    assert (2 * q + r + 1) * d == q * (2 * d) + (r + 1) * d;
    if r == 0 { assert (r + 1) * d == d; } else { assert (r + 1) * d == 2 * d; }
  }

  lemma {:induction false} HalvedIsShifted(c: nat, times: nat)
    ensures Halved(c, times) * Doubled(times) <= c < (Halved(c, times) + 1) * Doubled(times)
  {
    if times > 0 {
      HalvedIsShifted(c, times - 1);
      var h := Halved(c, times - 1);
      Halving(h / 2, h % 2, Doubled(times - 1), c);
    }
  }

  /** A tier has the capacity of the first, divided by a power of two and rounded down, and never less than one. */
  lemma CapacityIsExact(c: nat, depth: nat)
    requires depth >= 1
    ensures var n, d := Capacity(c, depth), Doubled(depth - 1);
      (n * d <= c < (n + 1) * d) || (n == 1 && c < d)
  {
    HalvedIsShifted(c, depth - 1);
  }

  function Total(c: nat, depth: nat): nat {
    if depth == 0 then 0 else Total(c, depth - 1) + Capacity(c, depth)
  }

  /** All tiers together have little more than twice the capacity of the first. */
  lemma {:induction false} TotalIsBounded(c: nat, depth: nat)
    requires c >= 1 && depth >= 1
    ensures Total(c, depth) <= 2 * c + depth - 2
    ensures Halved(c, depth - 1) >= 1 ==> Total(c, depth) <= 2 * c - Halved(c, depth - 1)
  {
    if depth > 1 {
      TotalIsBounded(c, depth - 1);
      assert Halved(c, depth - 1) == Halved(c, depth - 2) / 2;
    }
  }
}

/** Spawned children waiting for a slot of their depth, then for a place in their chain, then running. */
module ChildScheduling {
  import opened Prelude
  import opened SlotTiers

  /** `chain` 0 means chains are not limited. */
  datatype Limits = Limits(concurrency: nat, depth: nat, chain: nat)

  predicate Valid(l: Limits) {
    l.concurrency >= 1 && l.depth >= 1
  }

  datatype Key = Key(root: nat, depth: nat)

  datatype Stage = AwaitingSlot | AwaitingChain | Running

  /** One call of `spawn` in flight: where its parent run sits, and the semaphore it found for its chain. */
  datatype Spawn = Spawn(key: Key, parent: Option<nat>, stage: Stage, semaphore: nat)

  /** A semaphore shared by the users of a key; `made` counts the semaphores created so far. */
  datatype Chain = Chain(semaphore: nat, users: nat)

  datatype State = State(spawns: map<nat, Spawn>, chains: map<Key, Chain>, made: nat)

  const Init := State(map[], map[], 0)

  datatype Event =
    | Arrive(id: nat, root: nat)
    | ArriveUnder(id: nat, parent: nat)
    | TakeSlot(id: nat)
    | TakeChain(id: nat)
    | Finish(id: nat)
    | Abandon(id: nat)

  function HoldingSlot(s: State, depth: nat): set<nat> {
    set i | i in s.spawns && s.spawns[i].key.depth == depth && !s.spawns[i].stage.AwaitingSlot?
  }

  function InChain(s: State, semaphore: nat): set<nat> {
    set i | i in s.spawns && s.spawns[i].semaphore == semaphore && s.spawns[i].stage.Running?
  }

  function Nested(s: State, id: nat): set<nat> {
    set i | i in s.spawns && s.spawns[i].parent == Some(id)
  }

  function UsersOf(s: State, key: Key): set<nat> {
    set i | i in s.spawns && s.spawns[i].key == key
  }

  predicate Enabled(s: State, l: Limits, e: Event) {
    match e
    case Arrive(i, _) => i !in s.spawns && Nested(s, i) == {} && 1 <= l.depth
    case ArriveUnder(i, p) =>
      i !in s.spawns && Nested(s, i) == {} && p in s.spawns && s.spawns[p].stage.Running?
        && s.spawns[p].key.depth + 1 <= l.depth
    case TakeSlot(i) =>
      i in s.spawns && s.spawns[i].stage.AwaitingSlot? && s.spawns[i].key.depth >= 1
      && |HoldingSlot(s, s.spawns[i].key.depth)| < Capacity(l.concurrency, s.spawns[i].key.depth)
    case TakeChain(i) =>
      i in s.spawns && s.spawns[i].stage.AwaitingChain? && |InChain(s, s.spawns[i].semaphore)| < l.chain
    case Finish(i) => i in s.spawns && s.spawns[i].stage.Running? && Nested(s, i) == {}
    case Abandon(i) => i in s.spawns
  }

  /** One more user of the key, with the semaphore that is there or a new one. */
  function Joined(s: State, key: Key, l: Limits): (nat, State) {
    if l.chain == 0 then (0, s)
    else if key in s.chains then (s.chains[key].semaphore,
      s.(chains := s.chains[key := s.chains[key].(users := s.chains[key].users + 1)]))
    else (s.made, s.(chains := s.chains[key := Chain(s.made, 1)], made := s.made + 1))
  }

  /** One user less; the last one takes the semaphore along. */
  function Left(chains: map<Key, Chain>, key: Key, l: Limits): map<Key, Chain> {
    if l.chain == 0 || key !in chains then chains
    else if chains[key].users == 1 then chains - {key}
    else chains[key := chains[key].(users := if chains[key].users == 0 then 0 else chains[key].users - 1)]
  }

  function Arrived(s: State, i: nat, key: Key, parent: Option<nat>, l: Limits): State {
    var (semaphore, t) := Joined(s, key, l);
    t.(spawns := t.spawns[i := Spawn(key, parent, AwaitingSlot, semaphore)])
  }

  function Step(s: State, l: Limits, e: Event): State
    requires Enabled(s, l, e)
  {
    match e
    case Arrive(i, root) => Arrived(s, i, Key(root, 1), None, l)
    case ArriveUnder(i, p) => Arrived(s, i, Key(s.spawns[p].key.root, s.spawns[p].key.depth + 1), Some(p), l)
    case TakeSlot(i) =>
      s.(spawns := s.spawns[i := s.spawns[i].(stage := if l.chain == 0 then Running else AwaitingChain)])
    case TakeChain(i) => s.(spawns := s.spawns[i := s.spawns[i].(stage := Running)])
    case Finish(i) => s.(spawns := s.spawns - {i}, chains := Left(s.chains, s.spawns[i].key, l))
    case Abandon(i) => s.(spawns := s.spawns - {i}, chains := Left(s.chains, s.spawns[i].key, l))
  }

  predicate Legal(s: State, l: Limits, es: seq<Event>)
    decreases |es|
  {
    es == [] || (Enabled(s, l, es[0]) && Legal(Step(s, l, es[0]), l, es[1..]))
  }

  function Run(s: State, l: Limits, es: seq<Event>): State
    requires Legal(s, l, es)
    decreases |es|
  {
    if es == [] then s else Run(Step(s, l, es[0]), l, es[1..])
  }

  /** When a spawn may arrive, get on and finish. */
  lemma GuardsAreExact(s: State, l: Limits, i: nat, p: nat, root: nat)
    ensures var free := i !in s.spawns && forall k :: k in s.spawns ==> s.spawns[k].parent != Some(i);
      && (Enabled(s, l, Arrive(i, root)) <==> free && l.depth > 0)
      && (Enabled(s, l, ArriveUnder(i, p)) <==>
          free && p in s.spawns && s.spawns[p].stage.Running? && s.spawns[p].key.depth < l.depth)
    ensures Enabled(s, l, Finish(i)) <==>
            && i in s.spawns && s.spawns[i].stage.Running?
            && forall k :: k in s.spawns ==> s.spawns[k].parent != Some(i)
    ensures Enabled(s, l, TakeSlot(i)) <==>
            && i in s.spawns && s.spawns[i].stage.AwaitingSlot? && s.spawns[i].key.depth > 0
            && |HoldingSlot(s, s.spawns[i].key.depth)| + 1 <= Capacity(l.concurrency, s.spawns[i].key.depth)
    ensures Enabled(s, l, TakeChain(i)) <==>
            && i in s.spawns && s.spawns[i].stage.AwaitingChain?
            && |InChain(s, s.spawns[i].semaphore)| + 1 <= l.chain
  {
    assert forall k :: k in s.spawns && s.spawns[k].parent == Some(i) ==> k in Nested(s, i);
  }

  /** Where a spawn sits, and that it uses its chain from its arrival to its end, if chains are limited. */
  lemma ArrivingIsExact(s: State, l: Limits, e: Event)
    requires Enabled(s, l, e) && (e.Arrive? || e.ArriveUnder?)
    ensures var t := Step(s, l, e);
      var key :=
        if e.Arrive? then Key(e.root, 1) else Key(s.spawns[e.parent].key.root, s.spawns[e.parent].key.depth + 1);
      && t.spawns.Keys == s.spawns.Keys + {e.id} && (forall i :: i in s.spawns ==> t.spawns[i] == s.spawns[i])
      && t.spawns[e.id].key == key && t.spawns[e.id].stage.AwaitingSlot?
      && t.spawns[e.id].parent == (if e.Arrive? then None else Some(e.parent))
      && (l.chain == 0 ==> t.chains == s.chains && t.made == s.made)
      && (l.chain > 0 ==>
            && t.chains.Keys == s.chains.Keys + {key} && t.spawns[e.id].semaphore == t.chains[key].semaphore
            && (if key in s.chains
                then t.chains[key] == Chain(s.chains[key].semaphore, s.chains[key].users + 1) && t.made == s.made
                else t.chains[key] == Chain(s.made, 1) && t.made == s.made + 1))
  {
  }

  // ------------------------------------------------------------- invariant

  /** Depths count the levels of nesting and stay within the limit. */
  predicate Layered(s: State, l: Limits) {
    forall i :: i in s.spawns ==>
      && 1 <= s.spawns[i].key.depth <= l.depth
      && (s.spawns[i].parent.Some? && s.spawns[i].parent.value in s.spawns ==>
            s.spawns[i].key.depth == s.spawns[s.spawns[i].parent.value].key.depth + 1)
      && (l.chain == 0 ==> !s.spawns[i].stage.AwaitingChain?)
  }

  ghost predicate WithinSlots(s: State, l: Limits) {
    forall d :: d >= 1 ==> |HoldingSlot(s, d)| <= Capacity(l.concurrency, d)
  }

  predicate KnowsSemaphore(s: State, l: Limits) {
    && (l.chain == 0 ==> s.chains == map[])
    && (l.chain > 0 ==> forall i :: i in s.spawns ==>
        s.spawns[i].key in s.chains && s.spawns[i].semaphore == s.chains[s.spawns[i].key].semaphore)
  }

  predicate CountsUsers(s: State) {
    forall k :: k in s.chains ==> s.chains[k].users == |UsersOf(s, k)| > 0
  }

  predicate OwnSemaphore(s: State) {
    && (forall k :: k in s.chains ==> s.chains[k].semaphore < s.made)
    && (forall k, k' :: k in s.chains && k' in s.chains && s.chains[k].semaphore == s.chains[k'].semaphore ==> k == k')
  }

  /** One live semaphore per key in use, with as many users as spawns in flight, and none for other keys. */
  predicate OneSemaphore(s: State, l: Limits) {
    KnowsSemaphore(s, l) && CountsUsers(s) && OwnSemaphore(s)
  }

  ghost predicate WithinChains(s: State, l: Limits) {
    l.chain > 0 ==> forall k :: k in s.chains ==> |InChain(s, s.chains[k].semaphore)| <= l.chain
  }

  ghost predicate Inv(s: State, l: Limits) {
    Layered(s, l) && WithinSlots(s, l) && OneSemaphore(s, l) && WithinChains(s, l)
  }

  // ------------------------------------------------ one spawn at a time

  lemma DropSets(s: State, t: State, i: nat)
    requires t.spawns == s.spawns - {i}
    ensures forall d :: HoldingSlot(t, d) == HoldingSlot(s, d) - {i}
    ensures forall m :: InChain(t, m) == InChain(s, m) - {i}
    ensures forall k :: UsersOf(t, k) == UsersOf(s, k) - {i}
  {
  }

  lemma FreshKey(s: State, key: Key, l: Limits)
    requires OneSemaphore(s, l) && l.chain > 0 && key !in s.chains
    ensures UsersOf(s, key) == {} && InChain(s, s.made) == {}
  {
  }

  /** A spawn that arrives holds nothing yet. */
  lemma ArrivedSets(s: State, t: State, i: nat, sp: Spawn)
    requires i !in s.spawns && t.spawns == s.spawns[i := sp] && sp.stage.AwaitingSlot?
    ensures forall d :: HoldingSlot(t, d) == HoldingSlot(s, d)
    ensures forall m :: InChain(t, m) == InChain(s, m)
    ensures forall k :: UsersOf(t, k) == if k == sp.key then UsersOf(s, k) + {i} else UsersOf(s, k)
    ensures forall k :: i !in UsersOf(s, k)
  {
  }

  lemma ArrivedIsLayered(s: State, t: State, i: nat, sp: Spawn, l: Limits)
    requires Layered(s, l) && i !in s.spawns && Nested(s, i) == {} && t.spawns == s.spawns[i := sp]
    requires 1 <= sp.key.depth <= l.depth && sp.stage.AwaitingSlot?
    requires sp.parent.Some? ==> sp.parent.value in s.spawns && sp.key.depth == s.spawns[sp.parent.value].key.depth + 1
    ensures Layered(t, l)
  {
    assert forall j :: j in s.spawns ==> s.spawns[j].parent != Some(i) by {
      forall j | j in s.spawns && s.spawns[j].parent == Some(i) ensures j in Nested(s, i) {
      }
    }
  }

  /** Joining sets the key's entry to its semaphore and one user more. */
  lemma JoinedShape(s: State, key: Key, l: Limits)
    requires OneSemaphore(s, l) && l.chain > 0
    ensures var (m, t) := Joined(s, key, l);
      && t.chains == s.chains[key := Chain(m, |UsersOf(s, key)| + 1)] && t.spawns == s.spawns && s.made <= t.made
      && (if key in s.chains then m == s.chains[key].semaphore
          else m == s.made && t.made == s.made + 1 && InChain(s, m) == {})
  {
    hide UsersOf, InChain;
    if key !in s.chains { FreshKey(s, key, l); }
  }

  lemma PutKeepsSemaphores(s: State, t: State, i: nat, sp: Spawn, users: nat, l: Limits)
    requires KnowsSemaphore(s, l) && OwnSemaphore(s) && l.chain > 0
    requires t.chains == s.chains[sp.key := Chain(sp.semaphore, users)] && s.made <= t.made
    requires t.spawns == s.spawns[i := sp]
    requires if sp.key in s.chains then sp.semaphore == s.chains[sp.key].semaphore
        else sp.semaphore == s.made && t.made == s.made + 1
    ensures OwnSemaphore(t) && KnowsSemaphore(t, l)
  {
  }

  lemma JoinedKeepsChains(s: State, t: State, i: nat, sp: Spawn, l: Limits)
    requires OneSemaphore(s, l) && WithinChains(s, l) && i !in s.spawns && sp.stage.AwaitingSlot?
    requires t == Joined(s, sp.key, l).1.(spawns := s.spawns[i := sp]) && sp.semaphore == Joined(s, sp.key, l).0
    ensures OneSemaphore(t, l) && WithinChains(t, l)
  {
    hide UsersOf, InChain, KnowsSemaphore, OwnSemaphore;
    ArrivedSets(s, t, i, sp);
    if l.chain > 0 {
      JoinedShape(s, sp.key, l);
      hide Joined;
      PutKeepsSemaphores(s, t, i, sp, |UsersOf(s, sp.key)| + 1, l);
      assert CountsUsers(t) by { hide WithinChains; }
      assert WithinChains(t, l) by { hide CountsUsers; }
    } else {
      NoChains(s, t, l);
    }
  }

  lemma NoChains(s: State, t: State, l: Limits)
    requires OneSemaphore(s, l) && l.chain == 0 && t.chains == s.chains && t.made == s.made
    ensures OneSemaphore(t, l) && WithinChains(t, l)
  {
  }

  lemma ArrivedKeeps(s: State, i: nat, key: Key, parent: Option<nat>, l: Limits)
    requires Inv(s, l) && i !in s.spawns && Nested(s, i) == {} && 1 <= key.depth <= l.depth
    requires parent.Some? ==> parent.value in s.spawns && key.depth == s.spawns[parent.value].key.depth + 1
    ensures Inv(Arrived(s, i, key, parent, l), l)
  {
    hide Layered, OneSemaphore, WithinChains, UsersOf, InChain, HoldingSlot, Nested;
    var t := Arrived(s, i, key, parent, l);
    var sp := t.spawns[i];
    ArrivedIsLayered(s, t, i, sp, l);
    ArrivedSets(s, t, i, sp);
    JoinedKeepsChains(s, t, i, sp, l);
  }

  lemma TookSlotSets(s: State, t: State, i: nat, stage: Stage)
    requires i in s.spawns && s.spawns[i].stage.AwaitingSlot? && !stage.AwaitingSlot?
    requires t.spawns == s.spawns[i := s.spawns[i].(stage := stage)]
    ensures forall d ::
              HoldingSlot(t, d) == if d == s.spawns[i].key.depth then HoldingSlot(s, d) + {i} else HoldingSlot(s, d)
    ensures forall d :: i !in HoldingSlot(s, d)
    ensures forall k :: UsersOf(t, k) == UsersOf(s, k)
    ensures stage.AwaitingChain? ==> forall m :: InChain(t, m) == InChain(s, m)
  {
  }

  /** Advancing one spawn leaves the chain map and its users alone. */
  lemma AdvanceKeepsChains(s: State, t: State, i: nat, stage: Stage, l: Limits)
    requires OneSemaphore(s, l) && i in s.spawns && t == s.(spawns := s.spawns[i := s.spawns[i].(stage := stage)])
    requires forall k :: UsersOf(t, k) == UsersOf(s, k)
    ensures OneSemaphore(t, l)
  {
    hide UsersOf;
    assert KnowsSemaphore(t, l) by { hide CountsUsers, OwnSemaphore; }
    assert OwnSemaphore(t) by { hide KnowsSemaphore, CountsUsers; }
    assert CountsUsers(t) by { hide KnowsSemaphore, OwnSemaphore; }
  }

  lemma AdvanceIsLayered(s: State, t: State, i: nat, stage: Stage, l: Limits)
    requires Layered(s, l) && i in s.spawns && t.spawns == s.spawns[i := s.spawns[i].(stage := stage)]
    requires l.chain == 0 ==> !stage.AwaitingChain?
    ensures Layered(t, l)
  {
  }

  lemma TakeSlotKeeps(s: State, l: Limits, i: nat)
    requires Inv(s, l) && Enabled(s, l, TakeSlot(i))
    ensures Inv(Step(s, l, TakeSlot(i)), l)
  {
    hide HoldingSlot, UsersOf, InChain, OneSemaphore, Layered;
    var t := Step(s, l, TakeSlot(i));
    var stage := if l.chain == 0 then Running else AwaitingChain;
    TookSlotSets(s, t, i, stage);
    AdvanceIsLayered(s, t, i, stage, l);
    AdvanceKeepsChains(s, t, i, stage, l);
    assert WithinSlots(t, l) by { hide WithinChains; }
    assert WithinChains(t, l) by { hide WithinSlots; }
  }

  lemma TookChainSets(s: State, t: State, i: nat)
    requires i in s.spawns && s.spawns[i].stage.AwaitingChain?
    requires t.spawns == s.spawns[i := s.spawns[i].(stage := Running)]
    ensures forall m :: InChain(t, m) == if m == s.spawns[i].semaphore then InChain(s, m) + {i} else InChain(s, m)
    ensures forall m :: i !in InChain(s, m)
    ensures forall d :: HoldingSlot(t, d) == HoldingSlot(s, d)
    ensures forall k :: UsersOf(t, k) == UsersOf(s, k)
  {
  }

  lemma TakeChainKeeps(s: State, l: Limits, i: nat)
    requires Inv(s, l) && Enabled(s, l, TakeChain(i))
    ensures Inv(Step(s, l, TakeChain(i)), l)
  {
    hide HoldingSlot, UsersOf, InChain, OneSemaphore, Layered;
    var t := Step(s, l, TakeChain(i));
    TookChainSets(s, t, i);
    AdvanceIsLayered(s, t, i, Running, l);
    AdvanceKeepsChains(s, t, i, Running, l);
    assert WithinSlots(t, l) by { hide WithinChains; }
    assert WithinChains(t, l) by { hide WithinSlots; }
  }

  lemma NoneLeft(xs: set<nat>)
    requires |xs| == 0
    ensures xs == {}
  {
  }

  /** The users a key keeps when one of them leaves. */
  lemma LeftUsers(s: State, t: State, i: nat)
    requires i in s.spawns && t.spawns == s.spawns - {i}
    ensures var key := s.spawns[i].key;
      && |UsersOf(t, key)| == |UsersOf(s, key)| - 1
      && (forall k :: k != key ==> UsersOf(t, k) == UsersOf(s, k))
      && (|UsersOf(s, key)| == 1 ==> forall j :: j in t.spawns ==> t.spawns[j].key != key)
  {
    DropSets(s, t, i);
    var key := s.spawns[i].key;
    assert i in UsersOf(s, key);
    if |UsersOf(s, key)| == 1 {
      assert |UsersOf(t, key)| == 0;
      NoneLeft(UsersOf(t, key));
      forall j | j in t.spawns ensures t.spawns[j].key != key {
        assert j !in UsersOf(t, key);
      }
    }
  }

  lemma LeftShape(s: State, i: nat, l: Limits)
    requires OneSemaphore(s, l) && i in s.spawns && l.chain > 0
    ensures var key := s.spawns[i].key;
      key in s.chains && Left(s.chains, key, l)
      == if |UsersOf(s, key)| == 1 then s.chains - {key}
        else s.chains[key := Chain(s.chains[key].semaphore, |UsersOf(s, key)| - 1)]
  {
    hide UsersOf;
  }

  lemma DropKeepsSemaphores(s: State, t: State, i: nat, l: Limits)
    requires KnowsSemaphore(s, l) && OwnSemaphore(s) && i in s.spawns && l.chain > 0 && t.spawns == s.spawns - {i}
    requires t.made == s.made
    requires forall k :: k in t.chains ==> k in s.chains && t.chains[k].semaphore == s.chains[k].semaphore
    requires forall j :: j in t.spawns ==> t.spawns[j].key in t.chains
    ensures KnowsSemaphore(t, l) && OwnSemaphore(t)
  {
  }

  lemma LeftKeepsChains(s: State, t: State, i: nat, l: Limits)
    requires OneSemaphore(s, l) && WithinChains(s, l) && i in s.spawns
    requires t == s.(spawns := s.spawns - {i}, chains := Left(s.chains, s.spawns[i].key, l))
    ensures OneSemaphore(t, l) && WithinChains(t, l)
  {
    hide UsersOf, InChain, OwnSemaphore;
    if l.chain > 0 {
      LeftShape(s, i, l);
      LeftUsers(s, t, i);
      InChainShrinks(s, t, i);
      hide Left;
      assert forall j :: j in t.spawns ==> t.spawns[j].key in t.chains by { hide CountsUsers, WithinChains; }
      hide KnowsSemaphore;
      DropKeepsSemaphores(s, t, i, l);
      assert CountsUsers(t) by { hide WithinChains; }
      assert WithinChains(t, l) by { hide CountsUsers; }
    } else {
      NoChains(s, t, l);
    }
  }

  lemma InChainShrinks(s: State, t: State, i: nat)
    requires t.spawns == s.spawns - {i}
    ensures forall m :: |InChain(t, m)| <= |InChain(s, m)|
  {
    DropSets(s, t, i);
  }

  lemma LeaveKeeps(s: State, l: Limits, i: nat)
    requires Inv(s, l) && i in s.spawns
    ensures Inv(Step(s, l, Abandon(i)), l)
  {
    var t := Step(s, l, Abandon(i));
    DropSets(s, t, i);
    LeftKeepsChains(s, t, i, l);
    hide OneSemaphore, WithinChains;
    assert forall d :: |HoldingSlot(t, d)| <= |HoldingSlot(s, d)|;
    hide HoldingSlot;
  }

  lemma StepKeeps(s: State, l: Limits, e: Event)
    requires Inv(s, l) && Enabled(s, l, e)
    ensures Inv(Step(s, l, e), l)
  {
    hide Inv, Arrived, Left;
    match e
    case Arrive(i, root) => ArrivedKeeps(s, i, Key(root, 1), None, l);
    case ArriveUnder(i, p) => ArrivedKeeps(s, i, Key(s.spawns[p].key.root, s.spawns[p].key.depth + 1), Some(p), l);
    case TakeSlot(i) => TakeSlotKeeps(s, l, i);
    case TakeChain(i) => TakeChainKeeps(s, l, i);
    case Finish(i) => LeaveKeeps(s, l, i);
    case Abandon(i) => LeaveKeeps(s, l, i);
  }

  lemma {:induction false} RunKeeps(s: State, l: Limits, es: seq<Event>)
    requires Inv(s, l) && Legal(s, l, es)
    ensures Inv(Run(s, l, es), l)
    decreases |es|
  {
    hide Inv, Enabled, Step;
    if es != [] {
      StepKeeps(s, l, es[0]);
      RunKeeps(Step(s, l, es[0]), l, es[1..]);
    }
  }

  lemma InitKeeps(l: Limits)
    ensures Inv(Init, l)
  {
    assert forall d :: HoldingSlot(Init, d) == {};
  }

  // ----------------------------------------------------------- main results

  /** A spawn that lies deepest among those in flight. */
  lemma Deepest(spawns: map<nat, Spawn>, ids: set<nat>) returns (i: nat)
    requires ids != {} && ids <= spawns.Keys
    ensures i in ids && forall j :: j in ids ==> spawns[j].key.depth <= spawns[i].key.depth
    decreases ids
  {
    i :| i in ids;
    var rest := ids - {i};
    if rest != {} {
      var k := Deepest(spawns, rest);
      if spawns[i].key.depth < spawns[k].key.depth { i := k; }
    } else {
      assert ids == {i} by { assert ids == rest + {i}; }
    }
  }

  predicate Progress(e: Event) {
    e.TakeSlot? || e.TakeChain? || e.Finish?
  }

  /**
   No circle of waiting: whenever a spawn is in flight, one of them can take its slot, take its place in
   the chain, or is running with nothing nested to wait for.
   */
  lemma SomeoneCanProceed(l: Limits, es: seq<Event>) returns (e: Event)
    requires Legal(Init, l, es) && Run(Init, l, es).spawns != map[]
    ensures Progress(e) && Enabled(Run(Init, l, es), l, e)
  {
    InitKeeps(l);
    RunKeeps(Init, l, es);
    hide Run, Legal;
    e := DeepestCanProceed(Run(Init, l, es), l);
  }

  lemma DeepestCanProceed(s: State, l: Limits) returns (e: Event)
    requires Inv(s, l) && s.spawns != map[]
    ensures Progress(e) && Enabled(s, l, e)
  {
    var i := Deepest(s.spawns, s.spawns.Keys);
    var d := s.spawns[i].key.depth;
    if k :| k in s.spawns && s.spawns[k].key.depth == d && s.spawns[k].stage.Running? {
      e := Finish(k);
      assert Nested(s, k) == {};
    } else if k :| k in s.spawns && s.spawns[k].key.depth == d && s.spawns[k].stage.AwaitingChain? {
      e := TakeChain(k);
      assert InChain(s, s.spawns[k].semaphore) == {};
    } else {
      e := TakeSlot(i);
      assert HoldingSlot(s, d) == {};
    }
  }

  function HoldingUpTo(s: State, depth: nat): set<nat> {
    set i | i in s.spawns && s.spawns[i].key.depth <= depth && !s.spawns[i].stage.AwaitingSlot?
  }

  lemma {:induction false} HoldersAreBounded(s: State, l: Limits, depth: nat)
    requires Inv(s, l)
    ensures |HoldingUpTo(s, depth)| <= Total(l.concurrency, depth)
  {
    if depth == 0 {
      assert HoldingUpTo(s, 0) == {};
    } else {
      HoldersAreBounded(s, l, depth - 1);
      assert HoldingUpTo(s, depth) == HoldingUpTo(s, depth - 1) + HoldingSlot(s, depth);
      assert HoldingUpTo(s, depth - 1) !! HoldingSlot(s, depth);
    }
  }

  /** Children past their slot never number more than 2 * child_concurrency + child_max_depth - 2. */
  lemma ChildrenAreBounded(l: Limits, es: seq<Event>)
    requires Valid(l) && Legal(Init, l, es)
    ensures |HoldingUpTo(Run(Init, l, es), l.depth)| <= 2 * l.concurrency + l.depth - 2
    ensures forall i :: i in Run(Init, l, es).spawns && !Run(Init, l, es).spawns[i].stage.AwaitingSlot? ==>
              i in HoldingUpTo(Run(Init, l, es), l.depth)
  {
    InitKeeps(l);
    RunKeeps(Init, l, es);
    HoldersAreBounded(Run(Init, l, es), l, l.depth);
    TotalIsBounded(l.concurrency, l.depth);
  }

  /** The chain map has an entry exactly for the keys in use, its count is theirs, and its semaphore is theirs alone. */
  lemma ChainsAreShared(l: Limits, es: seq<Event>)
    requires Legal(Init, l, es) && l.chain > 0
    ensures var s := Run(Init, l, es);
      && (forall k :: k in s.chains <==> UsersOf(s, k) != {})
      && (forall k :: k in s.chains ==> s.chains[k].users == |UsersOf(s, k)|)
      && (forall i, j :: i in s.spawns && j in s.spawns ==>
          (s.spawns[i].key == s.spawns[j].key <==> s.spawns[i].semaphore == s.spawns[j].semaphore))
  {
    InitKeeps(l);
    RunKeeps(Init, l, es);
    var s := Run(Init, l, es);
    forall k | UsersOf(s, k) != {} ensures k in s.chains {
      var i :| i in UsersOf(s, k);
    }
  }
}

/** The chain map of the runtime object. */
module ChainSlots {
  import opened Prelude
  import opened ChildScheduling

  class ChildSlots {
    const limits: Limits
    var chains: map<Key, Chain>
    var made: nat

    constructor (limits: Limits)
      ensures this.limits == limits && chains == map[] && made == 0
    {
      this.limits := limits;
      chains, made := map[], 0;
    }

    /** Before waiting for a slot. */
    method Join(key: Key) returns (semaphore: nat)
      modifies this
      ensures forall spawns ::
                Joined(State(spawns, old(chains), old(made)), key, limits)
                == (if limits.chain == 0 then 0 else semaphore, State(spawns, chains, made))
    {
      semaphore := 0;
      if limits.chain != 0 {
        var users := 0;
        if key in chains {
          semaphore, users := chains[key].semaphore, chains[key].users;
        } else {
          semaphore := made;
          made := made + 1;
        }
        chains := chains[key := Chain(semaphore, users + 1)];
      }
    }

    /** On the way out, whatever happened. */
    method Leave(key: Key)
      requires limits.chain > 0 ==> key in chains && chains[key].users > 0
      modifies this
      ensures chains == Left(old(chains), key, limits) && made == old(made)
    {
      if limits.chain != 0 {
        if chains[key].users == 1 {
          chains := chains - {key};
        } else {
          chains := chains[key := chains[key].(users := chains[key].users - 1)];
        }
      }
    }
  }
}
