/**
 Releasing a principal whose channel is gone: its calls are awaited, and its lease on the machine is freed
 unless an outcome is in doubt. The lease belongs to the machine and is shared by all host processes on it;
 what a release awaits and which outcomes are in doubt, each host remembers for itself. Mutating calls only;
 others have no lease. A host that restarts is a new host.
 */
module PrincipalRelease {
  import opened Prelude

  /** The lease names the call by the identifier its caller chose. */
  datatype Holder = Holder(principal: string, callId: string)

  /** `running`: its provider task is not done. `left`: the host has taken the lease decision and forgotten it. */
  datatype Call = Call(host: nat, holder: Holder, running: bool, left: bool)

  /** A release under way: the calls that were listed when it began. */
  datatype Release = Release(host: nat, principal: string, awaited: set<nat>)

  /**
   `active`: per host, the call listed under an identifier. `known` and `retained`: per host, the principals it
   has met and those with an outcome in doubt. `lost`: the holders whose host died with the call.
   */
  datatype State = State(
    calls: map<nat, Call>, active: map<(nat, string), nat>, lease: Option<Holder>, known: set<(nat, string)>,
    retained: set<(nat, string)>, releases: map<nat, Release>, dead: set<nat>, lost: set<Holder>)

  const Init := State(map[], map[], None, {}, {}, map[], {}, {})

  datatype Event =
    | Meet(host: nat, principal: string)
    | Admit(call: nat, host: nat, holder: Holder)
    | Settle(call: nat)
    | Finish(call: nat, doubt: bool)
    | Expire
    | Begin(release: nat, host: nat, principal: string)
    | End(release: nat)
    | Close(host: nat, principal: string)
    | Crash(host: nat)

  /** The calls a host lists for a principal. */
  function Listed(s: State, host: nat, principal: string): set<nat> {
    set id | id in s.active && id.0 == host && s.active[id] in s.calls
      && s.calls[s.active[id]].holder.principal == principal :: s.active[id]
  }

  predicate Enabled(s: State, e: Event) {
    match e
    case Meet(h, _) => h !in s.dead
    case Admit(c, h, who) => h !in s.dead && c !in s.calls && (s.lease.None? || s.lease == Some(who))
    case Settle(c) => c in s.calls
    case Finish(c, _) => c in s.calls && !s.calls[c].left
    case Expire => true
    case Begin(r, h, _) => h !in s.dead && r !in s.releases
    case End(r) =>
      r in s.releases && forall c :: c in s.releases[r].awaited && c in s.calls ==> s.calls[c].left
    case Close(h, p) =>
      h !in s.dead && (h, p) in s.known
      && forall id :: id in s.active && id.0 == h && s.active[id] in s.calls ==> !s.calls[s.active[id]].running
    case Crash(h) => h !in s.dead
  }

  /** Whether the event frees the lease of a principal: a release without doubt, or a close whatever the doubt. */
  predicate FreesFor(s: State, e: Event, principal: string) {
    || (e.End? && e.release in s.releases && s.releases[e.release].principal == principal
        && (s.releases[e.release].host, principal) !in s.retained)
    || (e.Close? && e.principal == principal)
  }

  predicate Frees(s: State, e: Event) {
    s.lease.Some? && FreesFor(s, e, s.lease.value.principal)
  }

  function Step(s: State, e: Event): State
    requires Enabled(s, e)
  {
    match e
    case Meet(h, p) => s.(known := s.known + {(h, p)})
    case Admit(c, h, who) =>
      s.(calls := s.calls[c := Call(h, who, true, false)], active := s.active[(h, who.callId) := c],
         lease := Some(who), retained := s.retained - {(h, who.principal)})
    case Settle(c) => s.(calls := s.calls[c := s.calls[c].(running := false)])
    case Finish(c, doubt) =>
      var call := s.calls[c];
      s.(calls := s.calls[c := call.(left := true)], active := s.active - {(call.host, call.holder.callId)},
         retained := if doubt then s.retained + {(call.host, call.holder.principal)} else s.retained,
         lease := if !doubt && s.lease == Some(call.holder) then None else s.lease)
    case Expire => s.(lease := None)
    case Begin(r, h, p) => s.(releases := s.releases[r := Release(h, p, Listed(s, h, p))])
    case End(r) =>
      s.(lease := if Frees(s, e) then None else s.lease, releases := s.releases - {r},
         known := s.known - {(s.releases[r].host, s.releases[r].principal)})
    case Close(_, _) => s.(lease := if Frees(s, e) then None else s.lease)
    case Crash(h) =>
      s.(calls := map c | c in s.calls && s.calls[c].host != h :: s.calls[c],
         active := map id | id in s.active && id.0 != h :: s.active[id],
         releases := map r | r in s.releases && s.releases[r].host != h :: s.releases[r],
         dead := s.dead + {h},
         lost := s.lost + set c | c in s.calls && s.calls[c].host == h :: s.calls[c].holder)
  }

  predicate Legal(s: State, es: seq<Event>)
    decreases |es|
  {
    es == [] || (Enabled(s, es[0]) && Legal(Step(s, es[0]), es[1..]))
  }

  function Run(s: State, es: seq<Event>): State
    requires Legal(s, es)
    decreases |es|
  {
    if es == [] then s else Run(Step(s, es[0]), es[1..])
  }

  // ------------------------------------------------------------ discipline

  /** No mutation of the principal runs on another host. */
  predicate OnlyOn(s: State, host: nat, principal: string) {
    forall c :: c in s.calls && s.calls[c].holder.principal == principal && s.calls[c].running ==>
      s.calls[c].host == host
  }

  /**
   `quiet`: a principal that is being released admits nothing. `releases`, `closes`: a principal is released,
   and a host that knows it closed, only when it runs nothing on other hosts. `ids`: a call identifier is not
   used again while it is listed. `waits`: a call is left only when its provider task is done.
   */
  datatype Discipline = Discipline(quiet: bool, releases: bool, closes: bool, ids: bool, waits: bool)

  const Strict := Discipline(true, true, true, true, true)

  predicate Allows(p: Discipline, s: State, e: Event) {
    && (p.quiet && e.Admit? ==> forall r :: r in s.releases ==> s.releases[r].principal != e.holder.principal)
    && (p.releases && e.Begin? ==> OnlyOn(s, e.host, e.principal))
    && (p.closes && e.Close? ==> OnlyOn(s, e.host, e.principal))
    && (p.ids && e.Admit? ==> (e.host, e.holder.callId) !in s.active)
    && (p.waits && e.Finish? && e.call in s.calls ==> !s.calls[e.call].running)
  }

  predicate Obeys(p: Discipline, s: State, es: seq<Event>)
    requires Legal(s, es)
    decreases |es|
  {
    es == [] || (Allows(p, s, es[0]) && Obeys(p, Step(s, es[0]), es[1..]))
  }

  /** No effect of the principal is running, on any host. */
  predicate Idle(s: State, principal: string) {
    forall c :: c in s.calls && s.calls[c].holder.principal == principal ==> !s.calls[c].running
  }

  /** The event does not unlock the machine under a running effect of the principal it releases. */
  predicate Careful(s: State, e: Event) {
    Frees(s, e) ==> Idle(s, s.lease.value.principal)
  }

  predicate AlwaysCareful(s: State, es: seq<Event>)
    requires Legal(s, es)
    decreases |es|
  {
    es == [] || (Careful(s, es[0]) && AlwaysCareful(Step(s, es[0]), es[1..]))
  }

  // ------------------------------------------------------------- invariant

  /** What runs is listed on its host, and no call is listed in another's place. */
  predicate Tracked(s: State) {
    && (forall c :: c in s.calls && s.calls[c].running ==>
          var id := (s.calls[c].host, s.calls[c].holder.callId);
          !s.calls[c].left && id in s.active && s.active[id] == c)
    && (forall c :: c in s.calls && !s.calls[c].left ==>
          var id := (s.calls[c].host, s.calls[c].holder.callId);
          id in s.active && s.active[id] == c)
  }

  /** Whatever a principal under release has running is among the calls awaited. */
  predicate Awaited(s: State) {
    forall r, c :: r in s.releases && c in s.calls && s.calls[c].running
                   && s.calls[c].holder.principal == s.releases[r].principal ==>
      c in s.releases[r].awaited
  }

  lemma StepTracks(s: State, e: Event)
    requires Tracked(s) && Enabled(s, e) && Allows(Strict, s, e)
    ensures Tracked(Step(s, e))
  {
    hide Listed, OnlyOn, FreesFor;
  }

  lemma StepKeepsAwaited(s: State, e: Event)
    requires Tracked(s) && Awaited(s) && Enabled(s, e) && Allows(Strict, s, e)
    ensures Awaited(Step(s, e))
  {
    if e.Begin? {
      ListedAll(s, e.host, e.principal);
    }
    hide Listed, FreesFor, Tracked;
  }

  lemma ListedAll(s: State, host: nat, principal: string)
    requires Tracked(s) && OnlyOn(s, host, principal)
    ensures forall c :: c in s.calls && s.calls[c].running && s.calls[c].holder.principal == principal ==>
              c in Listed(s, host, principal)
  {
    forall c | c in s.calls && s.calls[c].running && s.calls[c].holder.principal == principal
      ensures c in Listed(s, host, principal)
    {
      assert s.active[(host, s.calls[c].holder.callId)] == c;
    }
  }

  lemma StepIsCareful(s: State, e: Event)
    requires Tracked(s) && Awaited(s) && Enabled(s, e) && Allows(Strict, s, e)
    ensures Careful(s, e)
  {
  }

  lemma {:induction false} DisciplinedReleasesAreCareful(s: State, es: seq<Event>)
    requires Tracked(s) && Awaited(s) && Legal(s, es) && Obeys(Strict, s, es)
    ensures AlwaysCareful(s, es)
    decreases |es|
  {
    hide Tracked, Awaited, Careful, Allows, Enabled, Step;
    if es != [] {
      StepTracks(s, es[0]);
      StepKeepsAwaited(s, es[0]);
      StepIsCareful(s, es[0]);
      DisciplinedReleasesAreCareful(Step(s, es[0]), es[1..]);
    }
  }

  // -------------------------------------------------------- counterexamples

  lemma {:induction false} RunAppends(p: Discipline, s: State, es: seq<Event>, e: Event)
    requires Legal(s, es) && Obeys(p, s, es) && Enabled(Run(s, es), e) && Allows(p, Run(s, es), e)
    ensures Legal(s, es + [e]) && Obeys(p, s, es + [e]) && Run(s, es + [e]) == Step(Run(s, es), e)
    ensures AlwaysCareful(s, es + [e]) ==> Careful(Run(s, es), e)
    decreases |es|
  {
    hide Enabled, Allows, Step, Careful;
    if es != [] {
      assert (es + [e])[1..] == es[1..] + [e];
      RunAppends(p, Step(s, es[0]), es[1..], e);
    } else {
      assert es + [e] == [e] && [e][1..] == [];
    }
  }

  /** One more event at the end of a run from the start. */
  lemma Then(p: Discipline, es: seq<Event>, s: State, e: Event) returns (longer: seq<Event>, t: State)
    requires Legal(Init, es) && Obeys(p, Init, es) && Run(Init, es) == s && Enabled(s, e) && Allows(p, s, e)
    ensures Legal(Init, longer) && Obeys(p, Init, longer) && Run(Init, longer) == t && t == Step(s, e)
    ensures AlwaysCareful(Init, longer) ==> Careful(s, e)
  {
    RunAppends(p, Init, es, e);
    longer, t := es + [e], Step(s, e);
  }

  lemma EmptyRun(p: Discipline)
    ensures Legal(Init, []) && Obeys(p, Init, []) && Run(Init, []) == Init
  {
  }

  /** A call admitted after a release began loses the machine's lease while it runs. */
  lemma LateCallIsUnlocked(p: Discipline) returns (es: seq<Event>)
    requires !p.quiet
    ensures Legal(Init, es) && Obeys(p, Init, es) && !AlwaysCareful(Init, es)
  {
    hide Legal, Run, Obeys, AlwaysCareful;
    var s: State;
    EmptyRun(p);
    es, s := Then(p, [], Init, Begin(0, 0, "p"));
    es, s := Then(p, es, s, Admit(0, 0, Holder("p", "x")));
    assert s.calls[0].running;
    es, s := Then(p, es, s, End(0));
  }

  /** So does one that runs on another host when the principal is released. */
  lemma OtherHostIsUnlocked(p: Discipline) returns (es: seq<Event>)
    requires !p.releases
    ensures Legal(Init, es) && Obeys(p, Init, es) && !AlwaysCareful(Init, es)
  {
    hide Legal, Run, Obeys, AlwaysCareful;
    var s: State;
    EmptyRun(p);
    es, s := Then(p, [], Init, Admit(0, 1, Holder("p", "x")));
    es, s := Then(p, es, s, Begin(0, 0, "p"));
    assert s.calls[0].running;
    es, s := Then(p, es, s, End(0));
  }

  /** Or when another host that knows the principal closes. */
  lemma CloseUnlocksOtherHost(p: Discipline) returns (es: seq<Event>)
    requires !p.closes
    ensures Legal(Init, es) && Obeys(p, Init, es) && !AlwaysCareful(Init, es)
  {
    hide Legal, Run, Obeys, AlwaysCareful;
    var s: State;
    EmptyRun(p);
    es, s := Then(p, [], Init, Admit(0, 1, Holder("p", "x")));
    es, s := Then(p, es, s, Meet(0, "p"));
    assert s.calls[0].running;
    es, s := Then(p, es, s, Close(0, "p"));
  }

  /** The first call runs on the first host, which does not list it; nobody holds the lease. */
  predicate Astray(s: State) {
    && s.lease.None? && 0 in s.calls && s.calls[0] == Call(0, Holder("p", "x"), true, s.calls[0].left)
    && s.active == map[] && s.releases == map[] && s.dead == {} && s.retained == {}
    && forall c :: c in s.calls ==> c <= 1 && (c == 1 ==> !s.calls[c].running)
  }

  /** The call of another host that died still holds the lease of the principal when it is released. */
  lemma AstrayIsUnlocked(p: Discipline, before: seq<Event>, astray: State) returns (es: seq<Event>)
    requires Legal(Init, before) && Obeys(p, Init, before) && Run(Init, before) == astray && Astray(astray)
    ensures Legal(Init, es) && Obeys(p, Init, es) && !AlwaysCareful(Init, es)
  {
    hide Legal, Run, Obeys, AlwaysCareful;
    var s: State;
    es, s := Then(p, before, astray, Admit(2, 1, Holder("p", "y")));
    es, s := Then(p, es, s, Crash(1));
    assert s.calls[0].running && s.active == map[];
    es, s := Then(p, es, s, Begin(0, 0, "p"));
    es, s := Then(p, es, s, End(0));
  }

  lemma ReuseGoesAstray(p: Discipline) returns (es: seq<Event>, s: State)
    requires !p.ids
    ensures Legal(Init, es) && Obeys(p, Init, es) && Run(Init, es) == s && Astray(s)
  {
    hide Legal, Run, Obeys, AlwaysCareful;
    EmptyRun(p);
    es, s := Then(p, [], Init, Admit(0, 0, Holder("p", "x")));
    es, s := Then(p, es, s, Admit(1, 0, Holder("p", "x")));
    es, s := Then(p, es, s, Settle(1));
    es, s := Then(p, es, s, Finish(1, false));
  }

  lemma AbandonedGoesAstray(p: Discipline) returns (es: seq<Event>, s: State)
    requires !p.waits
    ensures Legal(Init, es) && Obeys(p, Init, es) && Run(Init, es) == s && Astray(s)
  {
    hide Legal, Run, Obeys, AlwaysCareful;
    EmptyRun(p);
    es, s := Then(p, [], Init, Admit(0, 0, Holder("p", "x")));
    es, s := Then(p, es, s, Finish(0, false));
  }

  /** For each missing condition a run that unlocks the machine under a running effect. */
  lemma UndisciplinedReleaseUnlocks(p: Discipline) returns (es: seq<Event>)
    requires p != Strict
    ensures Legal(Init, es) && Obeys(p, Init, es) && !AlwaysCareful(Init, es)
  {
    hide Legal, Run, Obeys, AlwaysCareful;
    if !p.quiet {
      es := LateCallIsUnlocked(p);
    } else if !p.releases {
      es := OtherHostIsUnlocked(p);
    } else if !p.closes {
      es := CloseUnlocksOtherHost(p);
    } else {
      var s: State;
      if !p.ids {
        es, s := ReuseGoesAstray(p);
      } else {
        es, s := AbandonedGoesAstray(p);
      }
      es := AstrayIsUnlocked(p, es, s);
    }
  }

  /** Releases and closes never unlock the machine under a running effect, in all runs, exactly when all five hold. */
  lemma CarefulIsExact(p: Discipline)
    ensures p == Strict <==> forall es :: Legal(Init, es) && Obeys(p, Init, es) ==> AlwaysCareful(Init, es)
  {
    if p == Strict {
      forall es | Legal(Init, es) && Obeys(p, Init, es) ensures AlwaysCareful(Init, es) {
        DisciplinedReleasesAreCareful(Init, es);
      }
    } else {
      var es := UndisciplinedReleaseUnlocks(p);
    }
  }

  // ------------------------------------------------------ outcomes in doubt

  /** The holder has the lease and no call of its own that could give it back. */
  predicate Orphaned(s: State, who: Holder) {
    s.lease == Some(who) && forall c :: c in s.calls && s.calls[c].holder == who ==> s.calls[c].left
  }

  predicate StaysOrphaned(s: State, who: Holder, es: seq<Event>)
    requires Legal(s, es)
    decreases |es|
  {
    Orphaned(s, who) && (es == [] || StaysOrphaned(Step(s, es[0]), who, es[1..]))
  }

  /** What ends it: expiry, the same call again, a release by a host without the doubt, a close. */
  predicate Reclaims(s: State, who: Holder, e: Event) {
    e.Expire? || (e.Admit? && e.holder == who) || FreesFor(s, e, who.principal)
  }

  predicate NeverReclaimed(s: State, who: Holder, es: seq<Event>)
    requires Legal(s, es)
    decreases |es|
  {
    es == [] || (!Reclaims(s, who, es[0]) && NeverReclaimed(Step(s, es[0]), who, es[1..]))
  }

  lemma StepOrphans(s: State, who: Holder, e: Event)
    requires Orphaned(s, who) && Enabled(s, e)
    ensures Orphaned(Step(s, e), who) <==> !Reclaims(s, who, e)
  {
    if e.Admit? {
      assert Step(s, e).calls[e.call].holder == e.holder;
    }
    hide Listed;
  }

  /** An orphaned lease stays throughout a run exactly when nothing in it reclaims the lease. */
  lemma {:induction false} OrphanIsExact(s: State, who: Holder, es: seq<Event>)
    requires Orphaned(s, who) && Legal(s, es)
    ensures StaysOrphaned(s, who, es) <==> NeverReclaimed(s, who, es)
    decreases |es|
  {
    hide Orphaned, Enabled, Step, Reclaims;
    if es != [] {
      StepOrphans(s, who, es[0]);
      if Orphaned(Step(s, es[0]), who) {
        OrphanIsExact(Step(s, es[0]), who, es[1..]);
      }
    }
  }

  /** Only the host itself releases the principal; no host that knows it closes. */
  predicate LeftToItsHost(who: Holder, host: nat, e: Event) {
    && !e.Expire? && !(e.Admit? && e.holder == who)
    && (e.Begin? && e.principal == who.principal ==> e.host == host)
    && !(e.Close? && e.principal == who.principal)
  }

  /** The host has noted the doubt, and no other host is releasing the principal. */
  predicate KeptBy(s: State, who: Holder, host: nat) {
    && Orphaned(s, who) && (host, who.principal) in s.retained
    && forall r :: r in s.releases && s.releases[r].principal == who.principal ==> s.releases[r].host == host
  }

  lemma StepKeepsDoubt(s: State, who: Holder, host: nat, e: Event)
    requires KeptBy(s, who, host) && Enabled(s, e) && LeftToItsHost(who, host, e)
    ensures KeptBy(Step(s, e), who, host) && !Reclaims(s, who, e)
  {
    assert s.lease == Some(who);
    StepOrphans(s, who, e);
    hide Orphaned, Listed;
  }

  /**
   The lease of an outcome in doubt outlives every release by the host that noted the doubt, and the host
   itself, until it expires, the call is made again, or another host releases the principal or one closes.
   */
  lemma {:induction false} DoubtKeepsTheLease(s: State, who: Holder, host: nat, es: seq<Event>)
    requires KeptBy(s, who, host) && Legal(s, es) && forall i :: 0 <= i < |es| ==> LeftToItsHost(who, host, es[i])
    ensures StaysOrphaned(s, who, es)
    decreases |es|
  {
    hide Enabled, Step, LeftToItsHost, Reclaims;
    if es != [] {
      StepKeepsDoubt(s, who, host, es[0]);
      DoubtKeepsTheLease(Step(s, es[0]), who, host, es[1..]);
    }
  }

  /** A call that ends in doubt while it holds the lease leaves it so. */
  lemma DoubtIsKept(s: State, c: nat)
    requires Enabled(s, Finish(c, true)) && s.lease == Some(s.calls[c].holder)
    requires forall d :: d in s.calls && s.calls[d].holder == s.calls[c].holder && d != c ==> s.calls[d].left
    requires forall r :: r in s.releases && s.releases[r].principal == s.calls[c].holder.principal ==>
               s.releases[r].host == s.calls[c].host
    ensures KeptBy(Step(s, Finish(c, true)), s.calls[c].holder, s.calls[c].host)
  {
  }

  /** A call has ended in doubt on the first host. */
  lemma InDoubt() returns (es: seq<Event>, s: State)
    ensures Legal(Init, es) && Obeys(Strict, Init, es) && Run(Init, es) == s
    ensures KeptBy(s, Holder("p", "x"), 0) && (0, "p") in s.known && s.releases == map[] && s.dead == {}
    ensures (1, "p") !in s.retained && s.active == map[] && Idle(s, "p")
  {
    hide Legal, Run, Obeys, AlwaysCareful;
    EmptyRun(Strict);
    es, s := Then(Strict, [], Init, Meet(0, "p"));
    es, s := Then(Strict, es, s, Admit(0, 0, Holder("p", "x")));
    es, s := Then(Strict, es, s, Settle(0));
    es, s := Then(Strict, es, s, Finish(0, true));
  }

  /** Another host, or the same one restarted, knows of no doubt: releasing the principal there frees the lease. */
  lemma OtherHostForgetsDoubt() returns (s: State, es: seq<Event>)
    ensures Legal(Init, es) && Obeys(Strict, Init, es)
    ensures KeptBy(s, Holder("p", "x"), 0) && Enabled(s, Begin(0, 1, "p"))
    ensures Enabled(Step(s, Begin(0, 1, "p")), End(0)) && Run(Init, es) == Step(Step(s, Begin(0, 1, "p")), End(0))
    ensures Run(Init, es).lease.None?
  {
    hide Legal, Run, Obeys, AlwaysCareful;
    var t: State;
    es, s := InDoubt();
    es, t := Then(Strict, es, s, Begin(0, 1, "p"));
    es, t := Then(Strict, es, t, End(0));
  }

  /** So does the host that noted the doubt when it closes. */
  lemma CloseForgetsDoubt() returns (es: seq<Event>, s: State)
    ensures Legal(Init, es) && Obeys(Strict, Init, es) && Run(Init, es) == s
    ensures KeptBy(s, Holder("p", "x"), 0) && Enabled(s, Close(0, "p")) && Allows(Strict, s, Close(0, "p"))
    ensures Step(s, Close(0, "p")).lease.None?
  {
    es, s := InDoubt();
  }

  /** A lease belongs to a call that is still listed, to a principal in doubt on some host, or to a call that died. */
  ghost predicate Accounted(s: State) {
    s.lease.Some? ==>
      || (exists c :: c in s.calls && s.calls[c].holder == s.lease.value && !s.calls[c].left)
      || (exists h: nat :: (h, s.lease.value.principal) in s.retained)
      || s.lease.value in s.lost
  }

  lemma FinishAccounts(s: State, call: nat, doubt: bool)
    requires Accounted(s) && Enabled(s, Finish(call, doubt))
    ensures Accounted(Step(s, Finish(call, doubt)))
  {
    var t := Step(s, Finish(call, doubt));
    var mark := (s.calls[call].host, s.calls[call].holder.principal);
    if t.lease.Some? {
      assert s.retained <= t.retained && (doubt ==> mark in t.retained);
      if c :| c in s.calls && s.calls[c].holder == s.lease.value && !s.calls[c].left {
        assert c != call ==> t.calls[c] == s.calls[c];
      }
    }
  }

  lemma CrashAccounts(s: State, host: nat)
    requires Accounted(s) && Enabled(s, Crash(host))
    ensures Accounted(Step(s, Crash(host)))
  {
    var t := Step(s, Crash(host));
    if s.lease.Some? {
      if c :| c in s.calls && s.calls[c].holder == s.lease.value && !s.calls[c].left {
        assert if s.calls[c].host == host then s.calls[c].holder in t.lost else t.calls[c] == s.calls[c];
      }
    }
  }

  lemma StepAccounts(s: State, e: Event)
    requires Accounted(s) && Enabled(s, e)
    ensures Accounted(Step(s, e))
  {
    if e.Finish? {
      FinishAccounts(s, e.call, e.doubt);
    } else if e.Crash? {
      CrashAccounts(s, e.host);
    } else if e.Admit? {
      assert Step(s, e).calls[e.call].holder == e.holder;
    } else if s.lease.Some? && Step(s, e).lease.Some? {
      assert forall c :: c in s.calls ==>
        c in Step(s, e).calls && Step(s, e).calls[c].(running := false) == s.calls[c].(running := false);
      assert Step(s, e).retained == s.retained && Step(s, e).lost == s.lost;
    }
    hide Listed, FreesFor;
  }

  lemma {:induction false} RunKeepsAccounts(s: State, es: seq<Event>)
    requires Accounted(s) && Legal(s, es)
    ensures Accounted(Run(s, es))
    decreases |es|
  {
    hide Accounted, Enabled, Step;
    if es != [] {
      StepAccounts(s, es[0]);
      RunKeepsAccounts(Step(s, es[0]), es[1..]);
    }
  }
}
