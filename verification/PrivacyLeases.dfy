/**
 Who works on a request, and until when: a grant lasts for its period, each marked revision puts its end
 off, and until then every other claim is declined.
 */
module PrivacyLeases {
  import opened Prelude
  import opened ContentPrivacy
  import opened PrivacyTables
  import opened PrivacyProtocol
  import opened PrivacyReach

  ghost predicate LeasedUntil(t: Tables, id: string, token: Token, until: int) {
    && id in t.jobs && id in t.targets
    && t.jobs[id].lease == Some(token) && t.jobs[id].leaseUntil == until && !t.jobs[id].status.Complete?
  }

  // ------------------------------------------------- single transactions

  /** An unfinished target is about nobody known, and the request is about somebody. */
  ghost predicate Unsighted(t: Tables, id: string) {
    id in t.jobs && id in t.targets && t.jobs[id].request.subjects != []
    && (exists k, o :: k in t.targets[id] && !t.targets[id][k] && k in t.rows && o in t.rows[k].origins
                       && |o.subjects| == 0 && Reaches(t.jobs[id].request, o))
  }

  lemma BlindIsUnsighted(t: Tables, id: string)
    requires id in t.jobs && id in t.targets
    ensures (exists k :: k in Unfinished(t, id) && Blind(t, id, k)) <==> Unsighted(t, id)
  {
    forall k, o | k in t.rows && o in t.rows[k].origins
      ensures Reaches(t.jobs[id].request, o) <==> t.jobs[id].request.Matches(o)
    {
      ReachIsMatch(t.jobs[id].request, o);
    }
    if Unsighted(t, id) {
      var k, o :| k in t.targets[id] && !t.targets[id][k] && k in t.rows && o in t.rows[k].origins
        && |o.subjects| == 0 && Reaches(t.jobs[id].request, o);
      assert o.subjects == [] && t.jobs[id].request.ReachesBlindly(o);
      assert k in Unfinished(t, id) && Blind(t, id, k);
    }
    hide Reaches;
  }

  /**
   A claim is granted exactly when the request is open, its last lease is over, all surfaces are covered and
   nothing left to do is unsighted; the new lease then lasts for the period. While a lease runs, or the request
   is complete, a claim changes nothing; otherwise it is blocked with the reason.
   */
  lemma ClaimIsExact(t: Tables, id: string, required: set<string>, covered: set<string>, checkedAt: int, datedAt: int,
      leaseMs: nat, token: Token)
    ensures var (u, outcome) := Claim(t, id, required, covered, checkedAt, datedAt, leaseMs, token);
      && (outcome.UnknownRequest? <==> id !in t.jobs || id !in t.targets)
      && (!outcome.UnknownRequest? ==>
            var free := !t.jobs[id].status.Complete? && t.jobs[id].leaseUntil <= checkedAt;
            && (outcome.Granted? <==> free && required <= covered && !Unsighted(t, id))
            && (outcome.Granted? ==>
                  && LeasedUntil(u, id, token, datedAt + leaseMs) && u.jobs[id].status.Processing?
                  && outcome.request == t.jobs[id].request == u.jobs[id].request && u.jobs[id].reason == None)
            && (free && !outcome.Granted? ==>
                  u.jobs[id] == Job(t.jobs[id].request, Blocked, None, 0,
                    Some(if required <= covered then SubjectScopeUnknown else CoverageIncomplete)))
            && (!free ==> u == t)
            && u.jobs.Keys == t.jobs.Keys && forall i :: i in t.jobs && i != id ==> u.jobs[i] == t.jobs[i])
      && u.order == t.order && u.rows == t.rows && u.targets == t.targets
  {
    if id in t.jobs && id in t.targets {
      BlindIsUnsighted(t, id);
      assert required - covered == {} <==> required <= covered by {
        if required - covered == {} {
          forall x | x in required ensures x in covered { assert x !in required - covered; }
        }
      }
    }
    hide Blind, Unsighted;
  }

  /**
   Before the end of its lease a token marks exactly the target it names and renews; from then on it marks
   nothing.
   */
  lemma MarkIsExact(t: Tables, id: string, token: Token, k: Key, checkedAt: int, datedAt: int, leaseMs: nat, until: int)
    requires LeasedUntil(t, id, token, until)
    ensures var (u, held) := FinishRevision(t, id, token, k, checkedAt, datedAt, leaseMs);
      && (held <==> checkedAt < until)
      && (!held ==> u == t)
      && (held ==>
            && LeasedUntil(u, id, token, datedAt + leaseMs)
            && u.jobs == t.jobs[id := t.jobs[id].(leaseUntil := datedAt + leaseMs)]
            && u.targets.Keys == t.targets.Keys && u.targets[id].Keys == t.targets[id].Keys
            && (forall i, x :: i in t.targets && x in t.targets[i] ==>
                  (u.targets[i][x] <==> t.targets[i][x] || (i == id && x == k))))
      && u.order == t.order && u.rows == t.rows
  {
  }

  /** Before that end it closes the job: complete when nothing failed and nothing is left, and blocked otherwise. */
  lemma ClosingIsExact(t: Tables, id: string, token: Token, reason: Option<Reason>, now: int, until: int)
    requires LeasedUntil(t, id, token, until)
    ensures var u := FinishJob(t, id, token, reason, now);
      var left := exists k :: k in t.targets[id] && !t.targets[id][k];
      && (now >= until ==> u == t)
      && (now < until ==>
            && u == t.(jobs := u.jobs) && u.jobs.Keys == t.jobs.Keys
            && (forall i :: i in t.jobs && i != id ==> u.jobs[i] == t.jobs[i])
            && u.jobs[id].lease == None && u.jobs[id].leaseUntil == 0 && u.jobs[id].request == t.jobs[id].request
            && (u.jobs[id].status.Complete? <==> reason == None && !left)
            && (!u.jobs[id].status.Complete? ==>
                  && u.jobs[id].status.Blocked?
                  && u.jobs[id].reason == if reason == None then Some(RetryRequired) else reason)
            && (u.jobs[id].status.Complete? ==> u.jobs[id].reason == None))
  {
    assert Unfinished(t, id) == {} <==> forall k :: k in t.targets[id] ==> t.targets[id][k] by {
      if Unfinished(t, id) == {} {
        forall k | k in t.targets[id] ensures t.targets[id][k] { assert k !in Unfinished(t, id); }
      }
    }
  }

  // ------------------------------------------------------------ separation

  /** A fresh token is handed out for the request. */
  predicate Grants(s: State, e: Event, id: string) {
    e.ClaimJob? && e.id == id && e.token !in s.grants && e.token in Step(s, e).grants
  }

  /** While the token is the job's, it closes in time, or a claim comes when its lease is over. */
  predicate Ends(s: State, e: Event, id: string, token: Token) {
    && id in s.tables.jobs && s.tables.jobs[id].lease == Some(token)
    && ((e.CloseJob? && e.token == token && e.now < s.tables.jobs[id].leaseUntil)
        || (e.ClaimJob? && e.id == id && s.tables.jobs[id].leaseUntil <= e.checkedAt))
  }

  lemma LeasedInv(s: State, id: string, token: Token)
    requires Inv(s) && id in s.tables.jobs && s.tables.jobs[id].lease == Some(token)
    ensures id in s.tables.targets && !s.tables.jobs[id].status.Complete?
    ensures token in s.grants && s.grants[token].id == id
    ensures token in s.workers ==> s.workers[token].id == id
  {
    if token in s.workers { assert WorkerOk(s, token, s.workers[token]); }
  }

  lemma RecordExtendsJobs(t: Tables, r: Revision, origins: seq<Origin>, parents: seq<ParentRef>)
    ensures PrivacyTables.Record(t, r, origins, parents).0.jobs == t.jobs
    ensures PrivacyTables.Record(t, r, origins, parents).0.targets == t.targets
  {
  }

  /** The steps that can touch the job: a claim of it, and marking or closing with its token. */
  predicate Concerns(e: Event, id: string, token: Token) {
    (e.ClaimJob? && e.id == id) || ((e.MarkRevision? || e.CloseJob?) && e.token == token)
  }

  lemma WorkersOfOthers(s: State, e: Event, id: string, token: Token)
    requires (e.MarkRevision? || e.CloseJob?) && e.token != token
    requires id in s.tables.jobs && id in s.tables.targets && s.tables.jobs[id].lease == Some(token)
    ensures var u := Step(s, e).tables; id in u.jobs && id in u.targets && u.jobs[id] == s.tables.jobs[id]
  {
    hide Unfinished;
  }

  lemma OthersLeaveTheJob(s: State, e: Event, id: string, token: Token)
    requires id in s.tables.jobs && id in s.tables.targets && s.tables.jobs[id].lease == Some(token)
    requires !Concerns(e, id, token)
    ensures var u := Step(s, e).tables; id in u.jobs && id in u.targets && u.jobs[id] == s.tables.jobs[id]
  {
    if e.RecordRevision? {
      RecordExtendsJobs(s.tables, e.r, e.origins, e.parents);
    } else if e.ClaimJob? {
      ClaimIsExact(s.tables, e.id, s.required, e.covered, e.checkedAt, e.datedAt, s.leaseMs, e.token);
    } else if e.MarkRevision? || e.CloseJob? {
      WorkersOfOthers(s, e, id, token);
    }
    hide PrivacyTables.Record, Claim, FinishRevision, FinishJob, Scope, RevisionsOf, LeasedUntil;
  }

  lemma ClaimDeclined(s: State, e: Event)
    requires e.ClaimJob? && e.id in s.tables.jobs && e.id in s.tables.targets
    requires s.tables.jobs[e.id].leaseUntil > e.checkedAt
    ensures Step(s, e) == s
  {
    ClaimIsExact(s.tables, e.id, s.required, e.covered, e.checkedAt, e.datedAt, s.leaseMs, e.token);
    hide Claim, LeasedUntil;
  }

  lemma OwnMark(s: State, e: Event, id: string, token: Token)
    requires WorkersOk(s) && token in s.grants && s.grants[token].id == id && e.MarkRevision? && e.token == token
    requires id in s.tables.jobs && id in s.tables.targets && s.tables.jobs[id].lease == Some(token)
    requires !s.tables.jobs[id].status.Complete?
    ensures var until := s.tables.jobs[id].leaseUntil; var u := Step(s, e).tables;
      && id in u.jobs && id in u.targets && u.jobs[id].lease == Some(token)
      && (!Marks(s, e, token) || e.checkedAt < until ==>
            LeasedUntil(u, id, token, EndAfter(s, e, token, until)))
  {
    if token in s.workers { assert WorkerOk(s, token, s.workers[token]); }
    if Marks(s, e, token) {
      var w := s.workers[token];
      MarkIsExact(s.tables, id, token, w.todo[0].Id(), e.checkedAt, e.datedAt, s.leaseMs, s.tables.jobs[id].leaseUntil);
      hide FinishRevision, WorkersOk, WorkerOk;
    }
  }

  /** Until then the lease stays where it is, and every claim of the request is declined and changes nothing. */
  lemma TokenStays(s: State, e: Event, id: string, token: Token)
    requires Inv(s) && id in s.tables.jobs && s.tables.jobs[id].lease == Some(token) && !Ends(s, e, id, token)
    ensures var u := Step(s, e);
      && id in u.tables.jobs && u.tables.jobs[id].lease == Some(token)
      && (e.ClaimJob? && e.id == id ==> u == s)
  {
    LeasedInv(s, id, token);
    if !Concerns(e, id, token) {
      OthersLeaveTheJob(s, e, id, token);
    } else if e.ClaimJob? {
      ClaimDeclined(s, e);
    } else if e.MarkRevision? {
      WorkersAreOk(s);
      OwnMark(s, e, id, token);
    } else {
      LateClose(s, e, id, token);
    }
    hide Inv, Step, WorkersOk, LeasedUntil;
  }

  lemma LateClose(s: State, e: Event, id: string, token: Token)
    requires e.CloseJob? && e.token == token && id in s.tables.jobs && s.tables.jobs[id].lease == Some(token)
    requires token in s.workers ==> s.workers[token].id == id
    requires e.now >= s.tables.jobs[id].leaseUntil
    ensures Step(s, e).tables == s.tables
  {
    hide Unfinished;
  }

  lemma {:induction false} UntilEnded(s: State, es: seq<Event>, id: string, token: Token)
    requires Inv(s) && id in s.tables.jobs && s.tables.jobs[id].lease == Some(token)
    requires forall k :: 0 <= k < |es| ==> !Ends(Run(s, es[..k]), es[k], id, token)
    ensures forall k :: 0 <= k < |es| ==> !Grants(Run(s, es[..k]), es[k], id)
    decreases |es|
  {
    hide Inv, Step, Ends;
    if es != [] {
      assert es[..0] == [] && Run(s, es[..0]) == s;
      assert !Ends(Run(s, es[..0]), es[0], id, token);
      TokenStays(s, es[0], id, token);
      StepKeeps(s, es[0]);
      var s1, rest := Step(s, es[0]), es[1..];
      forall k | 0 <= k < |rest| ensures Run(s1, rest[..k]) == Run(s, es[..k + 1]) {
        assert es[..k + 1][1..] == rest[..k];
      }
      assert forall k :: 0 <= k < |rest| ==> rest[k] == es[k + 1];
      UntilEnded(s1, rest, id, token);
      forall k | 0 <= k < |es| ensures !Grants(Run(s, es[..k]), es[k], id) {
        if k > 0 { assert es[k] == rest[k - 1]; }
      }
    }
  }

  lemma {:induction false} RunSplits(s: State, a: seq<Event>, b: seq<Event>)
    ensures Run(s, a + b) == Run(Run(s, a), b)
    decreases |a|
  {
    hide Step;
    if a == [] {
      assert a + b == b;
    } else {
      assert (a + b)[1..] == a[1..] + b;
      RunSplits(Step(s, a[0]), a[1..], b);
    }
  }

  lemma GrantLeases(s: State, e: Event, id: string)
    requires Inv(s) && Grants(s, e, id)
    ensures id in s.tables.jobs && LeasedUntil(Step(s, e).tables, id, e.token, e.datedAt + s.leaseMs)
    ensures s.tables.jobs[id].leaseUntil <= e.checkedAt
  {
    ClaimIsExact(s.tables, id, s.required, e.covered, e.checkedAt, e.datedAt, s.leaseMs, e.token);
    hide Claim;
  }

  /** Where a run is after a part of it. */
  lemma Resumed(init: State, es: seq<Event>, i: nat, j: nat, k: nat)
    requires i < j < |es| && i + 1 + k <= j
    ensures Run(Step(Run(init, es[..i]), es[i]), es[i + 1..j + 1][..k]) == Run(init, es[..i + 1 + k])
    ensures es[i + 1..j + 1][k] == es[i + 1 + k]
  {
    hide Step;
    var later := es[i + 1..j + 1];
    assert es[..i + 1 + k] == es[..i] + ([es[i]] + later[..k]);
    RunSplits(init, es[..i], [es[i]] + later[..k]);
    assert ([es[i]] + later[..k])[1..] == later[..k];
  }

  lemma SomethingEnds(s: State, es: seq<Event>, last: nat, id: string, token: Token) returns (k: nat)
    requires Inv(s) && id in s.tables.jobs && s.tables.jobs[id].lease == Some(token)
    requires last < |es| && Grants(Run(s, es[..last]), es[last], id)
    ensures k < |es| && Ends(Run(s, es[..k]), es[k], id, token)
  {
    hide Inv, Ends, Run, Grants;
    if forall k :: 0 <= k < |es| ==> !Ends(Run(s, es[..k]), es[k], id, token) {
      UntilEnded(s, es, id, token);
    }
    k :| k < |es| && Ends(Run(s, es[..k]), es[k], id, token);
  }

  lemma GrantIsLeased(s: State, e: Event, id: string)
    requires Inv(s) && Grants(s, e, id)
    ensures Inv(Step(s, e)) && id in Step(s, e).tables.jobs && Step(s, e).tables.jobs[id].lease == Some(e.token)
  {
    GrantLeases(s, e, id);
    StepKeeps(s, e);
    hide Inv, Step, Grants;
  }

  /** Some time after a grant, and no later than the next one, its hold ends. */
  lemma EndBetween(init: State, es: seq<Event>, i: nat, j: nat, id: string, token: Token) returns (k: nat)
    requires Inv(init) && i < j < |es| && es[i].ClaimJob? && es[i].token == token
    requires Grants(Run(init, es[..i]), es[i], id)
    requires Grants(Run(init, es[..j]), es[j], id)
    ensures i < k <= j && Ends(Run(init, es[..k]), es[k], id, token)
  {
    hide Inv, Step, Ends, Run, Grants;
    RunKeeps(init, es[..i]);
    GrantIsLeased(Run(init, es[..i]), es[i], id);
    var start := Step(Run(init, es[..i]), es[i]);
    var later := es[i + 1..j + 1];
    var last := j - i - 1;
    Resumed(init, es, i, j, last);
    var m := SomethingEnds(start, later, last, id, token);
    Resumed(init, es, i, j, m);
    k := i + 1 + m;
  }

  /** Between two grants of one request the first token closes the job in time, or its lease is over. */
  lemma GrantsAreSeparated(required: set<string>, leaseMs: nat, es: seq<Event>, i: nat, j: nat, id: string)
    requires i < j < |es|
    requires Grants(Run(Init(required, leaseMs), es[..i]), es[i], id)
    requires Grants(Run(Init(required, leaseMs), es[..j]), es[j], id)
    ensures exists k :: i < k <= j && Ends(Run(Init(required, leaseMs), es[..k]), es[k], id, es[i].token)
  {
    assert es[i].ClaimJob?;
    hide Inv, Ends, Init, Run, Grants;
    InitIsInvariant(required, leaseMs);
    var k := EndBetween(Init(required, leaseMs), es, i, j, id, es[i].token);
  }

  // -------------------------------------------------------------- deadlines

  /** The holder marks its current revision: the lease then lasts for another period. */
  predicate Marks(s: State, e: Event, token: Token) {
    e.MarkRevision? && e.token == token && token in s.workers && s.workers[token].phase.Marking?
    && s.workers[token].todo != []
  }

  function EndAfter(s: State, e: Event, token: Token, until: int): int {
    if Marks(s, e, token) then e.datedAt + s.leaseMs else until
  }

  /** Claims of the request and marks of the holder come before each end, and the holder does not close. */
  predicate InTime(s: State, es: seq<Event>, id: string, token: Token, until: int)
    decreases |es|
  {
    es == [] ||
    (&& (Marks(s, es[0], token) ==> es[0].checkedAt < until)
     && (es[0].ClaimJob? && es[0].id == id ==> es[0].checkedAt < until)
     && !(es[0].CloseJob? && es[0].token == token)
     && InTime(Step(s, es[0]), es[1..], id, token, EndAfter(s, es[0], token, until)))
  }

  function EndOf(s: State, es: seq<Event>, token: Token, until: int): int
    decreases |es|
  {
    if es == [] then until else EndOf(Step(s, es[0]), es[1..], token, EndAfter(s, es[0], token, until))
  }

  /** Every claim of the request meanwhile is declined and changes nothing. */
  predicate AllDeclined(s: State, es: seq<Event>, id: string)
    decreases |es|
  {
    es == []
    || ((es[0].ClaimJob? && es[0].id == id ==> Step(s, es[0]) == s) && AllDeclined(Step(s, es[0]), es[1..], id))
  }

  lemma StepInTime(s: State, e: Event, id: string, token: Token, until: int)
    requires Inv(s) && LeasedUntil(s.tables, id, token, until) && InTime(s, [e], id, token, until)
    ensures LeasedUntil(Step(s, e).tables, id, token, EndAfter(s, e, token, until))
    ensures e.ClaimJob? && e.id == id ==> Step(s, e) == s
  {
    LeasedInv(s, id, token);
    if !Concerns(e, id, token) {
      OthersLeaveTheJob(s, e, id, token);
    } else if e.ClaimJob? {
      ClaimDeclined(s, e);
    } else {
      WorkersAreOk(s);
      OwnMark(s, e, id, token);
    }
    hide Inv, Step, WorkersOk;
  }

  /** A grant kept up lasts: the request stays leased to its token, to the end that its last mark set. */
  lemma {:induction false} KeepingUpKeepsTheLease(s: State, es: seq<Event>, id: string, token: Token, until: int)
    requires Inv(s) && LeasedUntil(s.tables, id, token, until) && InTime(s, es, id, token, until)
    ensures LeasedUntil(Run(s, es).tables, id, token, EndOf(s, es, token, until)) && AllDeclined(s, es, id)
    decreases |es|
  {
    hide Inv, Step, LeasedUntil;
    if es != [] {
      assert InTime(s, [es[0]], id, token, until) by {
        assert [es[0]][1..] == [];
      }
      StepInTime(s, es[0], id, token, until);
      StepKeeps(s, es[0]);
      KeepingUpKeepsTheLease(Step(s, es[0]), es[1..], id, token, EndAfter(s, es[0], token, until));
    }
  }

  // ------------------------------------------------------------ the worker

  function ReasonOf(outcome: Outcome): Option<Reason> {
    match outcome
    case Applied => None
    case Conflicted => Some(RevisionConflict)
    case NoSink => Some(SinkUnavailable)
    case Raised => Some(SinkFailed)
  }

  /**
   A worker that waits for its sink notes a receipt for exactly its current target and goes on to mark it, or
   gives up with the reason; in every other phase an answer is no news.
   */
  lemma AnswersAreNoted(s: State, token: Token, outcome: Outcome)
    requires token in s.workers
    ensures var w := s.workers[token]; var u := Step(s, ApplySink(token, outcome));
      && u == s.(workers := u.workers, receipts := u.receipts)
      && (w.phase.Applying? && w.todo != [] ==>
            && u.workers
               == s.workers[token := w.(phase := if outcome.Applied? then Marking else Closing(ReasonOf(outcome)))]
            && u.receipts == (if outcome.Applied? then s.receipts + {(token, w.todo[0])} else s.receipts))
      && (!w.phase.Applying? || w.todo == [] ==> u == s)
  {
  }

  /** Marking in time goes on to the next target, marking too late ends the worker, and nothing else is marked. */
  lemma MarksGoOn(s: State, token: Token, checkedAt: int, datedAt: int, until: int)
    requires Marks(s, MarkRevision(token, checkedAt, datedAt), token)
    requires LeasedUntil(s.tables, s.workers[token].id, token, until)
    ensures var w := s.workers[token]; var u := Step(s, MarkRevision(token, checkedAt, datedAt));
      && u == s.(tables := u.tables, workers := u.workers)
      && (checkedAt < until ==>
            && u.workers == s.workers[token := w.(todo := w.todo[1..], phase := Applying)]
            && LeasedUntil(u.tables, w.id, token, datedAt + s.leaseMs)
            && (w.todo[0].Id() in s.tables.targets[w.id] ==>
                  w.todo[0].Id() in u.tables.targets[w.id] && u.tables.targets[w.id][w.todo[0].Id()]))
      && (checkedAt >= until ==> u == s.(workers := s.workers - {token}))
  {
    var w := s.workers[token];
    MarkIsExact(s.tables, w.id, token, w.todo[0].Id(), checkedAt, datedAt, s.leaseMs, until);
    hide FinishRevision;
  }

  /** A worker that gave up closes the job as blocked with its reason, and one that finished its list with none. */
  lemma ClosesAsNoted(s: State, token: Token, now: int)
    requires token in s.workers
    ensures var w := s.workers[token]; var u := Step(s, CloseJob(token, now));
      && (w.phase.Closing? ==>
            u == s.(tables := FinishJob(s.tables, w.id, token, w.phase.reason, now), workers := s.workers - {token}))
      && (w.phase.Applying? && w.todo == [] ==>
            u == s.(tables := FinishJob(s.tables, w.id, token, None, now), workers := s.workers - {token}))
      && (w.phase.Marking? || (w.phase.Applying? && w.todo != []) ==> u == s)
  {
    hide FinishJob;
  }

  /**
   So a job whose sink refused, was missing or raised is blocked for that very reason when its worker closes in
   time.
   */
  lemma FailureBlocks(s: State, token: Token, outcome: Outcome, now: int, until: int)
    requires token in s.workers && s.workers[token].phase.Applying? && s.workers[token].todo != []
    requires !outcome.Applied? && LeasedUntil(s.tables, s.workers[token].id, token, until) && now < until
    ensures var id := s.workers[token].id;
      var u := Step(Step(s, ApplySink(token, outcome)), CloseJob(token, now));
      && id in u.tables.jobs && u.tables.jobs[id].status.Blocked? && u.tables.jobs[id].reason == ReasonOf(outcome)
      && u.tables.jobs[id].lease == None && token !in u.workers && u.tables.targets == s.tables.targets
  {
    var id := s.workers[token].id;
    AnswersAreNoted(s, token, outcome);
    var t := Step(s, ApplySink(token, outcome));
    ClosesAsNoted(t, token, now);
    ClosingIsExact(t.tables, id, token, ReasonOf(outcome), now, until);
    hide Step, FinishJob;
  }

  /** An exception gives up as a failed sink, and a crash leaves the tables to the lease. */
  lemma BreakdownsAreNoted(s: State, token: Token)
    requires token in s.workers
    ensures Step(s, WorkerFails(token))
            == if s.workers[token].phase.Closing? then s
               else s.(workers := s.workers[token := s.workers[token].(phase := Closing(Some(SinkFailed)))])
    ensures Step(s, Crash(token)) == s.(workers := s.workers - {token})
  {
  }

  /** A fresh token of a granted claim is a worker with the whole work list, revision by revision. */
  lemma GrantsStartWorkers(s: State, e: Event)
    requires Inv(s) && e.ClaimJob? && Grants(s, e, e.id)
    ensures var u := Step(s, e); var ks := WorkList(s.tables, e.id);
      && u.grants == s.grants[e.token := Grant(e.id, e.covered)] && s.required <= e.covered
      && e.token in u.workers && u.workers == s.workers[e.token := u.workers[e.token]]
      && u.workers[e.token].id == e.id && u.workers[e.token].phase.Applying?
      && u.workers[e.token].request == s.tables.jobs[e.id].request
      && |u.workers[e.token].todo| == |ks|
      && forall i :: 0 <= i < |ks| ==>
           ks[i] in s.tables.rows && u.workers[e.token].todo[i] == RevisionOf(ks[i], s.tables.rows[ks[i]])
  {
    GrantLeases(s, e, e.id);
    ClaimIsExact(s.tables, e.id, s.required, e.covered, e.checkedAt, e.datedAt, s.leaseMs, e.token);
    ClaimShape(s, e.id, e.covered, e.checkedAt, e.datedAt, e.token);
    var ks := WorkList(s.tables, e.id);
    WorkListIsExact(s.tables, e.id);
    ListedAreRecorded(s, e.id);
    RevisionsInOrder(s.tables, ks);
    hide Inv, Claim, WorkList, RevisionsOf;
  }

  lemma ListedAreRecorded(s: State, id: string)
    requires Inv(s) && id in s.tables.jobs
    ensures id in s.tables.targets && forall k :: k in Unfinished(s.tables, id) ==> k in s.tables.rows
  {
    assert Scoped(s.tables);
  }

  lemma {:induction false} RevisionsInOrder(t: Tables, ks: seq<Key>)
    requires forall k :: k in ks ==> k in t.rows
    ensures |RevisionsOf(t, ks)| == |ks|
    ensures forall i :: 0 <= i < |ks| ==> RevisionsOf(t, ks)[i] == RevisionOf(ks[i], t.rows[ks[i]])
    decreases |ks|
  {
    if ks != [] {
      RevisionsInOrder(t, ks[1..]);
    }
  }
}
