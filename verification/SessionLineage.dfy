/** Parent chains: a partial map from each identifier to its parent, finite upwards from everywhere. */
module ParentChains {
  import opened Prelude

  type Parents = map<string, Option<string>>

  /** `path` leads from `x` upwards to something without a parent. */
  predicate Chain(p: Parents, x: string, path: seq<string>) {
    && path != [] && path[0] == x
    && (forall i :: 0 <= i < |path| ==> path[i] in p)
    && (forall i :: 0 <= i < |path| - 1 ==> p[path[i]] == Some(path[i + 1]))
    && p[path[|path| - 1]] == None
  }

  ghost predicate Grounded(p: Parents) {
    forall x :: x in p ==> exists path :: Chain(p, x, path)
  }

  lemma ChainOf(p: Parents, x: string) returns (path: seq<string>)
    requires Grounded(p) && x in p
    ensures Chain(p, x, path)
  {
    path :| Chain(p, x, path);
  }

  lemma ChainStep(p: Parents, x: string, path: seq<string>)
    requires Chain(p, x, path)
    ensures x in p && path != [] && path[0] == x
    ensures if |path| == 1 then path == [x] && p[x] == None else p[x] == Some(path[1]) && Chain(p, path[1], path[1..])
  {
  }

  /** The top has no parent, and below it every element has one. */
  lemma ChainTop(p: Parents, x: string, path: seq<string>)
    requires Chain(p, x, path)
    ensures path != [] && path[|path| - 1] in p && p[path[|path| - 1]] == None
    ensures |path| > 1 ==> exists y :: y in p && p[y] == Some(path[|path| - 1])
  {
    if |path| > 1 {
      assert p[path[|path| - 2]] == Some(path[|path| - 1]);
    }
  }

  /** Chains in a larger map; the new identifier has the chain of its parent below it. */
  lemma AddedChains(p: Parents, x: string, parent: Option<string>, y: string, path: seq<string>)
    requires Grounded(p) && x !in p && (parent.Some? ==> parent.value in p) && Chain(p[x := parent], y, path)
    ensures y != x ==> Chain(p, y, path)
    ensures y == x && parent.Some? ==> |path| > 1 && Chain(p, parent.value, path[1..])
    ensures y == x && parent.None? ==> path == [x]
  {
    var q := p[x := parent];
    ChainStep(q, y, path);
    hide Chain, Grounded;
    if y != x {
      OldChain(p, x, parent, y, path);
    } else if parent.Some? {
      OldChain(p, x, parent, parent.value, path[1..]);
    }
  }

  lemma OldChain(p: Parents, x: string, parent: Option<string>, y: string, path: seq<string>)
    requires Grounded(p) && x !in p && y in p && Chain(p[x := parent], y, path)
    ensures Chain(p, y, path)
  {
    hide Grounded;
    var known := ChainOf(p, y);
    ChainElements(p, y, known);
    ChainSurvives(p, p[x := parent], y, known);
    ChainIsUnique(p[x := parent], y, path, known);
  }

  lemma ChainElements(p: Parents, x: string, path: seq<string>)
    requires Chain(p, x, path)
    ensures forall y :: y in path ==> y in p
  {
  }

  lemma RestrictedChains(p: Parents, keep: set<string>, y: string, path: seq<string>)
    requires Grounded(p) && keep <= p.Keys && (forall z :: z in keep && p[z].Some? ==> p[z].value in keep)
    requires Chain(map z | z in keep :: p[z], y, path)
    ensures Chain(p, y, path)
  {
    ChainSurvives(map z | z in keep :: p[z], p, y, path);
  }

  lemma {:induction false} ChainIsUnique(p: Parents, x: string, a: seq<string>, b: seq<string>)
    requires Chain(p, x, a) && Chain(p, x, b)
    ensures a == b
    decreases |a|
  {
    ChainStep(p, x, a);
    ChainStep(p, x, b);
    if |a| > 1 {
      ChainIsUnique(p, a[1], a[1..], b[1..]);
      assert a == [x] + a[1..] && b == [x] + b[1..];
    }
  }

  /** A chain never meets an identifier twice: parents are acyclic. */
  lemma ChainHasNoCycle(p: Parents, x: string, path: seq<string>, i: nat, j: nat)
    requires Chain(p, x, path) && i < j < |path|
    ensures path[i] != path[j]
  {
    if path[i] == path[j] {
      assert Chain(p, path[i], path[i..]) && Chain(p, path[i], path[j..]);
      ChainIsUnique(p, path[i], path[i..], path[j..]);
    }
  }

  lemma ChainAbove(p: Parents, x: string, path: seq<string>, i: nat)
    requires Chain(p, x, path) && i < |path|
    ensures Chain(p, path[i], path[i..])
  {
  }

  lemma ChainExtends(p: Parents, x: string, parent: string, path: seq<string>)
    requires x in p && p[x] == Some(parent) && Chain(p, parent, path)
    ensures Chain(p, x, [x] + path)
  {
    var whole := [x] + path;
    assert forall i :: 0 < i < |whole| ==> whole[i] == path[i - 1];
  }

  /** Chains only look at parents. */
  lemma ChainSurvives(p: Parents, q: Parents, x: string, path: seq<string>)
    requires Chain(p, x, path) && forall y :: y in path ==> y in q && q[y] == p[y]
    ensures Chain(q, x, path)
  {
    assert forall i :: 0 <= i < |path| ==> path[i] in path;
  }

  lemma AddKeepsGrounded(p: Parents, x: string, parent: Option<string>)
    requires Grounded(p) && x !in p && (parent.Some? ==> parent.value in p)
    ensures Grounded(p[x := parent])
  {
    var q := p[x := parent];
    forall y | y in q ensures exists path :: Chain(q, y, path) {
      if y != x || parent.Some? {
        var start := if y == x then parent.value else y;
        var path := ChainOf(p, start);
        ChainElements(p, start, path);
        ChainSurvives(p, q, start, path);
        if y == x {
          ChainExtends(q, x, start, path);
        }
      } else {
        assert Chain(q, x, [x]);
      }
    }
  }

  /** Removing identifiers nothing that stays refers to. */
  lemma RestrictKeepsGrounded(p: Parents, keep: set<string>)
    requires Grounded(p) && keep <= p.Keys && forall y :: y in keep && p[y].Some? ==> p[y].value in keep
    ensures Grounded(map y | y in keep :: p[y])
  {
    var q := map y | y in keep :: p[y];
    forall y | y in q ensures exists path :: Chain(q, y, path) {
      var path := ChainOf(p, y);
      ChainStays(p, keep, y, path);
      ChainSurvives(p, q, y, path);
    }
  }

  lemma {:induction false} ChainStays(p: Parents, keep: set<string>, x: string, path: seq<string>)
    requires Chain(p, x, path) && x in keep && keep <= p.Keys
    requires forall y :: y in keep && p[y].Some? ==> p[y].value in keep
    ensures forall y :: y in path ==> y in keep
    decreases |path|
  {
    if |path| > 1 {
      ChainAbove(p, x, path, 1);
      ChainStays(p, keep, path[1], path[1..]);
      assert path == [x] + path[1..];
    } else {
      assert path == [x];
    }
  }
}

/** Sessions form a forest, and delegated runs follow it. */
module SessionLineage {
  import opened Prelude
  import opened RuntimeTables
  import opened ParentChains

  function SessionParents(s: Store): Parents {
    map x | x in s.sessions :: s.sessions[x].parent
  }

  function RunParents(s: Store): Parents {
    map r | r in s.runs :: s.runs[r].parentRun
  }

  /** `root_session_id` is the top of the parent chain, and empty for a session at the top. */
  ghost predicate Rooted(s: Store) {
    forall x, path :: x in s.sessions && Chain(SessionParents(s), x, path) ==>
      s.sessions[x].root == if s.sessions[x].parent.None? then None else Some(path[|path| - 1])
  }

  /** A delegated run lives in a child session of its parent run's session. */
  ghost predicate Delegated(s: Store) {
    forall r :: r in s.runs && s.runs[r].parentRun.Some? ==>
      && s.runs[r].parentRun.value in s.runs
      && s.runs[s.runs[r].parentRun.value].tenant == s.runs[r].tenant
      && s.runs[r].session in s.sessions
      && s.sessions[s.runs[r].session].parent == Some(s.runs[s.runs[r].parentRun.value].session)
  }

  ghost predicate Forest(s: Store) {
    Linked(s) && Grounded(SessionParents(s)) && Grounded(RunParents(s)) && Rooted(s) && Delegated(s)
  }

  // ------------------------------------- operations that keep the structure

  predicate SameShape(s: Store, t: Store) {
    && t.sessions.Keys == s.sessions.Keys && t.runs.Keys == s.runs.Keys
    && (forall x :: x in s.sessions ==>
          var (a, b) :=
            (s.sessions[x], t.sessions[x]); a.tenant == b.tenant && a.parent == b.parent && a.root == b.root)
    && (forall r :: r in s.runs ==>
          var (a, b) :=
            (s.runs[r], t.runs[r]); a.tenant == b.tenant && a.session == b.session && a.parentRun == b.parentRun)
  }

  lemma SameShapeKeeps(s: Store, t: Store)
    requires Forest(s) && SameShape(s, t) && Linked(t)
    ensures Forest(t)
  {
    hide Grounded, Chain, Linked;
    assert SessionParents(t) == SessionParents(s);
    assert RunParents(t) == RunParents(s);
  }

  lemma SameShapeTransitive(s: Store, t: Store, u: Store)
    requires SameShape(s, t) && SameShape(t, u)
    ensures SameShape(s, u)
  {
  }

  /** Rows other than sessions and runs have no part in the shape. */
  lemma SameRowsSameShape(s: Store, t: Store)
    requires t.sessions == s.sessions && t.runs == s.runs
    ensures SameShape(s, t)
  {
  }

  lemma RunPutKeepsShape(s: Store, r: Id, row: RunRow)
    requires r in s.runs && row.tenant == s.runs[r].tenant && row.session == s.runs[r].session
    requires row.parentRun == s.runs[r].parentRun
    ensures SameShape(s, s.(runs := s.runs[r := row]))
  {
  }

  lemma SessionPutKeepsShape(s: Store, x: Id, row: Session)
    requires x in s.sessions && row.tenant == s.sessions[x].tenant && row.parent == s.sessions[x].parent
    requires row.root == s.sessions[x].root
    ensures SameShape(s, s.(sessions := s.sessions[x := row]))
  {
  }

  lemma SameShapeKeepsRowLinks(s: Store, t: Store)
    requires SameShape(s, t) && RunLinks(s) && ParentLinks(s)
    ensures RunLinks(t) && ParentLinks(t)
  {
    assert RunLinks(t) by { hide ParentLinks; }
    assert ParentLinks(t) by { hide RunLinks; }
  }

  /** Links between rows whose messages and tools are the same. */
  lemma SameShapeKeepsLinks(s: Store, t: Store)
    requires SameShape(s, t) && Linked(s) && t.messages == s.messages && t.tools.Keys == s.tools.Keys
    requires forall c :: c in s.tools ==> t.tools[c].session == s.tools[c].session
    ensures Linked(t)
  {
    SameShapeKeepsRowLinks(s, t);
    hide ParentLinks, RunLinks;
  }

  lemma MessagedKeepsShape(s: Store, run: Id, m: Id, role: string, text: string, toolCall: Option<string>,
      complete: bool)
    requires run in s.runs && Linked(s)
    ensures SameShape(s, Messaged(s, run, m, role, text, toolCall, complete))
    ensures Linked(Messaged(s, run, m, role, text, toolCall, complete))
  {
    MessagedShape(s, run, m, role, text, toolCall, complete);
    hide Messaged;
    var t := Messaged(s, run, m, role, text, toolCall, complete);
    MessagedSameShape(s, run, t);
    SameShapeKeepsRowLinks(s, t);
    MessagePutKeepsLinks(s, run, m, t);
  }

  lemma MessagePutKeepsLinks(s: Store, run: Id, m: Id, t: Store)
    requires run in s.runs && Linked(s) && t.runs == s.runs && t.sessions.Keys == s.sessions.Keys
    requires t.tools.Keys == s.tools.Keys
    requires forall c :: c in s.tools ==> t.tools[c].session == s.tools[c].session
    requires m in t.messages && t.messages == s.messages[m := t.messages[m]]
    requires t.messages[m].session == s.runs[run].session && t.messages[m].run == Some(run)
    ensures MessageLinks(t) && ToolLinks(t)
  {
    hide ParentLinks;
    assert ToolLinks(t) by { hide MessageLinks, RunLinks; }
    assert MessageLinks(t) by { hide ToolLinks; }
  }

  lemma MessagedSameShape(s: Store, run: Id, t: Store)
    requires run in s.runs && RunLinks(s) && t.runs == s.runs && t.sessions == Touched(s, s.runs[run].session).sessions
    ensures SameShape(s, t)
  {
    var x := s.runs[run].session;
    SessionPutKeepsShape(s, x, t.sessions[x]);
  }

  lemma TransitionKeepsShape(s: Store, run: Id, status: Status, output: Option<string>, m: Id)
    requires Linked(s)
    ensures SameShape(s, Transition(s, run, status, output, m).1) && Linked(Transition(s, run, status, output, m).1)
  {
    hide Messaged, Linked, SameShape;
    SameRowsSameShape(s, s);
    if run in s.runs {
      var next := s.runs[run].(status := status, output := output, finished := Terminal(status));
      var moved := s.(runs := s.runs[run := next]);
      RunPutKeepsShape(s, run, next);
      SameShapeKeepsLinks(s, moved);
      if output.Some? {
        MessagedKeepsShape(moved, run, m, "assistant", output.value, None, true);
        SameShapeTransitive(s, moved, Messaged(moved, run, m, "assistant", output.value, None, true));
      }
    }
  }

  lemma BeginKeepsShape(s: Store, call: Call, m: Id)
    requires Linked(s)
    ensures SameShape(s, BeginTool(s, call, m).1) && Linked(BeginTool(s, call, m).1)
  {
    hide Messaged, Linked, SameShape, Enqueued;
    SameRowsSameShape(s, s);
    if call.run in s.runs {
      var row := s.runs[call.run];
      var put := s.(tools := s.tools[call := Tool(row.tenant, row.session, false, false, None, 1, 1)]);
      var begun := Enqueued(put, OfTool(call));
      EnqueuedShape(put, OfTool(call));
      ToolPutKeepsLinks(s, call, put, begun);
      SameRowsSameShape(s, begun);
      MessagedKeepsShape(begun, call.run, m, "tool", "", Some(call.call), false);
      SameShapeTransitive(s, begun, Messaged(begun, call.run, m, "tool", "", Some(call.call), false));
    }
  }

  lemma ToolPutKeepsLinks(s: Store, call: Call, put: Store, t: Store)
    requires Linked(s) && call.run in s.runs && put.tools.Keys == s.tools.Keys + {call} && put == s.(tools := put.tools)
    requires forall c :: c in put.tools ==>
               put.tools[c].session == if c == call then s.runs[call.run].session else s.tools[c].session
    requires t == put.(outbox := t.outbox)
    ensures Linked(t)
  {
    assert RunLinks(t) && MessageLinks(t) && ParentLinks(t) by { hide ToolLinks; }
    assert ToolLinks(t) by { hide RunLinks, MessageLinks, ParentLinks; }
  }

  lemma EditKeepsShape(s: Store, x: Id, tenant: string, agent: string, e: Edit)
    ensures var t := EditSession(s, x, tenant, agent, e).1;
      SameShape(s, t) && t.messages == s.messages && t.tools == s.tools
  {
    hide SameShape, Enqueued;
    SameRowsSameShape(s, s);
    if x in s.sessions {
      var row := Edited(s.sessions[x], e);
      var touched := row.(sourceVersion := row.sourceVersion + 1);
      var put := s.(sessions := s.sessions[x := touched]);
      SessionPutKeepsShape(s, x, touched);
      EnqueuedShape(put, OfSession(x));
      SameRowsSameShape(put, Enqueued(put, OfSession(x)));
      SameShapeTransitive(s, put, Enqueued(put, OfSession(x)));
      assert s.sessions[x := row][x := touched] == s.sessions[x := touched];
    }
  }

  lemma QuietOpKeepsShape(s: Store, op: Op)
    requires Linked(s) && (op.DoRequestCancel? || op.DoReserve? || op.DoBackfill? || op.DoEdit?)
    ensures SameShape(s, Step(s, op)) && Linked(Step(s, op))
  {
    hide Linked, SameShape, EditSession;
    var t := Step(s, op);
    match op
    case DoEdit(x, tenant, agent, e) =>
      EditKeepsShape(s, x, tenant, agent, e);
      SameShapeKeepsLinks(s, t);
    case DoRequestCancel(run) =>
      SameRowsSameShape(s, s);
      if run in s.runs { RunPutKeepsShape(s, run, s.runs[run].(cancelRequested := true)); }
      SameShapeKeepsLinks(s, t);
    case _ =>
      SameRowsSameShape(s, t);
      SameShapeKeepsLinks(s, t);
  }

  lemma FinishKeepsShape(s: Store, call: Call, o: Outcome, anchor: Option<Id>)
    requires Linked(s)
    ensures SameShape(s, FinishTool(s, call, o, anchor).1) && Linked(FinishTool(s, call, o, anchor).1)
  {
    hide Enqueued, RunLinks, MessageLinks, ParentLinks;
    SameRowsSameShape(s, s);
    if call in s.tools {
      var tool := s.tools[call];
      var put := s.(tools := s.tools[call := tool.(finished := true, failed := o.Errored? || o.flagged,
                                                    result := if o.Errored? then None else Some(o.text),
                                                    sourceVersion := tool.sourceVersion + 1)]);
      var ended := Enqueued(put, OfTool(call));
      EnqueuedShape(put, OfTool(call));
      ToolPutKeepsLinks(s, call, put, ended);
      SameRowsSameShape(s, ended);
      hide Linked;
      AnchoredKeepsShape(ended, anchor, o.text);
      SameShapeTransitive(s, ended, Anchored(ended, anchor, o.text));
    }
  }

  lemma AnchoredKeepsShape(s: Store, anchor: Option<Id>, text: string)
    requires Linked(s)
    ensures SameShape(s, Anchored(s, anchor, text)) && Linked(Anchored(s, anchor, text))
  {
    hide Enqueued, ParentLinks;
    SameRowsSameShape(s, s);
    if anchor.Some? && anchor.value in s.messages {
      var row := s.messages[anchor.value];
      var put := s.(messages := s.messages[anchor.value := row.(text := text, complete := true,
        sourceVersion := row.sourceVersion + 1)]);
      EnqueuedShape(put, OfMessage(anchor.value));
      SameRowsSameShape(s, Enqueued(put, OfMessage(anchor.value)));
      SameShapeKeepsRowLinks(s, Enqueued(put, OfMessage(anchor.value)));
    }
  }

  // --------------------------------------- operations that add or remove

  /** A new session under an existing parent, or at the top. */
  lemma AddSessionKeeps(s: Store, t: Store, x: Id, row: Session)
    requires Grounded(SessionParents(s)) && Rooted(s)
    requires x !in s.sessions && t.sessions == s.sessions[x := row]
    requires row.parent.Some? ==> row.parent.value in s.sessions
    requires row.root == (if row.parent.Some?
        && s.sessions[row.parent.value].root.Some? then s.sessions[row.parent.value].root else row.parent)
    ensures Grounded(SessionParents(t)) && Rooted(t)
  {
    hide Grounded, Chain;
    var p, q := SessionParents(s), SessionParents(t);
    assert q == p[x := row.parent];
    AddKeepsGrounded(p, x, row.parent);
    forall y, path | y in t.sessions && Chain(q, y, path)
      ensures path != [] && t.sessions[y].root == if t.sessions[y].parent.None? then None else Some(path[|path| - 1])
    {
      AddedChains(p, x, row.parent, y, path);
      ChainStep(q, y, path);
      if y == x && row.parent.Some? {
        ChainStep(p, row.parent.value, path[1..]);
      }
    }
  }

  lemma AddRunKeeps(s: Store, t: Store, r: Id, row: RunRow)
    requires Grounded(RunParents(s)) && Delegated(s)
    requires r !in s.runs && t.sessions == s.sessions && t.runs == s.runs[r := row] && row.session in s.sessions
    requires row.parentRun.Some? ==>
               && row.parentRun.value in s.runs && s.runs[row.parentRun.value].tenant == row.tenant
               && s.sessions[row.session].parent == Some(s.runs[row.parentRun.value].session)
    ensures Grounded(RunParents(t)) && Delegated(t)
  {
    hide Grounded, Chain;
    assert RunParents(t) == RunParents(s)[r := row.parentRun];
    AddKeepsGrounded(RunParents(s), r, row.parentRun);
    hide RunParents;
  }

  lemma AddSessionKeepsDelegated(s: Store, t: Store, x: Id, row: Session)
    requires Delegated(s) && x !in s.sessions && t.sessions == s.sessions[x := row] && t.runs == s.runs
    ensures Delegated(t) && RunParents(t) == RunParents(s)
  {
  }

  /** The session part of an acceptance. */
  lemma AcceptSessionKeeps(s: Store, q: Request, c: Context, mid: Store)
    requires Forest(s) && mid == s.(sessions := s.sessions[q.session := AcceptedSession(s, q, c)])
    requires ParentAllowed(s, q, c)
    ensures Grounded(SessionParents(mid)) && Grounded(RunParents(mid)) && Rooted(mid) && Delegated(mid) && Linked(mid)
  {
    var row := AcceptedSession(s, q, c);
    if q.session in s.sessions {
      hide Grounded, Chain, Linked;
      SessionPutKeepsShape(s, q.session, row);
      SameShapeKeepsLinks(s, mid);
      SameShapeKeeps(s, mid);
    } else {
      hide Grounded, Chain, Rooted;
      AddSessionKeepsDelegated(s, mid, q.session, row);
      AcceptParentIsThere(s, q, c);
      AddSessionKeeps(s, mid, q.session, row);
      AddSessionKeepsLinks(s, mid, q.session, row);
    }
  }

  lemma AcceptParentIsThere(s: Store, q: Request, c: Context)
    requires Linked(s) && q.session !in s.sessions && ParentAllowed(s, q, c)
    ensures var row := AcceptedSession(s, q, c);
      && (row.parent.Some? ==> row.parent.value in s.sessions)
      && row.root == (if row.parent.Some?
          && s.sessions[row.parent.value].root.Some? then s.sessions[row.parent.value].root else row.parent)
      && (row.root.Some? ==> row.root.value in s.sessions)
  {
    hide MessageLinks, ToolLinks;
  }

  lemma AddSessionKeepsLinks(s: Store, t: Store, x: Id, row: Session)
    requires Linked(s) && x !in s.sessions && t == s.(sessions := s.sessions[x := row])
    requires row.parent.Some? ==> row.parent.value in s.sessions
    requires row.root.Some? ==> row.root.value in s.sessions
    ensures Linked(t)
  {
    assert RunLinks(t) by { hide ParentLinks, MessageLinks, ToolLinks; }
    assert MessageLinks(t) && ToolLinks(t) by { hide ParentLinks, RunLinks; }
    assert ParentLinks(t) by { hide RunLinks, MessageLinks, ToolLinks; }
  }

  lemma AddRunKeepsLinks(s: Store, t: Store, r: Id, row: RunRow)
    requires Linked(s) && r !in s.runs && t == s.(runs := s.runs[r := row])
    requires row.session in s.sessions && s.sessions[row.session].tenant == row.tenant
    requires row.parentRun.Some? ==> row.parentRun.value in s.runs
    ensures Linked(t)
  {
    assert RunLinks(t) by { hide ParentLinks, MessageLinks, ToolLinks; }
    assert MessageLinks(t) && ToolLinks(t) by { hide ParentLinks, RunLinks; }
    assert ParentLinks(t) by { hide RunLinks, MessageLinks, ToolLinks; }
  }

  lemma AcceptedParentSession(s: Store, q: Request, c: Context)
    requires ParentAllowed(s, q, c) && c.parentRun.Some?
    ensures AcceptedSession(s, q, c).parent == Some(s.runs[c.parentRun.value].session)
  {
  }

  lemma AcceptKeepsForest(s: Store, q: Request, c: Context, m: Id)
    requires Forest(s) && m !in s.messages
    ensures Forest(Accept(s, q, c, m).1)
  {
    hide Grounded, Chain, Rooted, Delegated, Messaged, Linked, RunLinks, AcceptedSession, SessionParents, RunParents;
    var t := Accept(s, q, c, m).1;
    if t != s {
      var row, run := AcceptedSession(s, q, c), AcceptedRow(s, q, c);
      var mid := s.(sessions := s.sessions[q.session := row]);
      var begun := mid.(runs := s.runs[q.run := run]);
      assert q.run !in s.runs by { assert q.run !in Clashes(s, q); }
      AcceptSessionKeeps(s, q, c, mid);
      if c.parentRun.Some? { AcceptedParentSession(s, q, c); }
      assert row.tenant == c.tenant by { AcceptedTenant(s, q, c); }
      AddRunKeeps(mid, begun, q.run, run);
      AddRunKeepsLinks(mid, begun, q.run, run);
      assert SessionParents(begun) == SessionParents(mid) && (Rooted(mid) ==> Rooted(begun))
        by { SameSessions(mid, begun); }
      MessagedKeepsShape(begun, q.run, m, "user", q.input, None, true);
      SameShapeKeeps(begun, t);
    }
  }

  lemma AcceptedTenant(s: Store, q: Request, c: Context)
    requires q.session in s.sessions ==> s.sessions[q.session].tenant == c.tenant
    ensures AcceptedSession(s, q, c).tenant == c.tenant
  {
  }

  lemma SameSessions(s: Store, t: Store)
    requires t.sessions == s.sessions
    ensures SessionParents(t) == SessionParents(s) && (Rooted(s) ==> Rooted(t))
  {
    hide Chain;
  }

  lemma CreateKeepsForest(s: Store, x: Id, tenant: string, agent: string, title: string, parent: Option<Id>)
    requires Forest(s)
    ensures Forest(CreateSession(s, x, tenant, agent, title, parent).1)
  {
    hide Grounded, Chain, Rooted, RunLinks, MessageLinks, ToolLinks;
    var (r, t) := CreateSession(s, x, tenant, agent, title, parent);
    if r.Ok? {
      var row := t.sessions[x];
      var mid := s.(sessions := s.sessions[x := row]);
      assert t == mid.(outbox := t.outbox);
      AddSessionKeeps(s, mid, x, row);
      AddSessionKeepsDelegated(s, mid, x, row);
      AddSessionKeepsLinks(s, mid, x, row);
      SameRowsSameShape(mid, t);
      OutboxIsFree(mid, t.outbox);
      SameShapeKeeps(mid, t);
    }
  }

  /** No run that stays was delegated by a run of a removable session. */
  lemma PurgeOrphansNothing(s: Store, x: Id)
    requires Forest(s) && Removable(s, x)
    ensures forall r :: r in s.runs && s.runs[r].session != x && s.runs[r].parentRun.Some? ==>
              s.runs[r].parentRun.value in s.runs && s.runs[s.runs[r].parentRun.value].session != x
  {
    hide Grounded, Chain, Rooted, Linked;
  }

  /** The restricting foreign key on roots can never be what refuses a purge. */
  lemma RootKeyNeverFires(s: Store, x: Id)
    requires Forest(s) && x in s.sessions && Removable(s, x)
    ensures !RootReferenced(s, x)
  {
    hide Linked, Delegated, Grounded, Chain;
    var p := SessionParents(s);
    forall y | y in s.sessions && y != x ensures s.sessions[y].root != Some(x) {
      var path := ChainOf(p, y);
      ChainTop(p, y, path);
      ChainStep(p, y, path);
    }
  }

  lemma PurgeKeepsForest(s: Store, x: Id, tenant: string, agent: string)
    requires Forest(s)
    ensures Forest(Purge(s, x, tenant, agent).1)
  {
    hide Forest, Linked, Removable, RootReferenced, Cascaded, DeleteIntents;
    var (r, t) := Purge(s, x, tenant, agent);
    if r.Ok? {
      var mid := Cascaded(s, x);
      CascadeKeepsForest(s, x);
      ForestIsLinked(mid);
      assert SameShape(mid, t);
      OutboxIsFree(mid, t.outbox);
      SameShapeKeeps(mid, t);
    }
  }

  lemma OutboxIsFree(s: Store, outbox: set<Intent>)
    requires Linked(s)
    ensures Linked(s.(outbox := outbox))
  {
  }

  lemma CascadeKeepsForest(s: Store, x: Id)
    requires Forest(s) && x in s.sessions && Removable(s, x) && !RootReferenced(s, x)
    ensures Forest(Cascaded(s, x))
  {
    hide Removable, RootReferenced, Grounded, Rooted, Delegated, Linked;
    CascadeKeepsSessions(s, x);
    CascadeKeepsRuns(s, x);
    CascadeKeepsLinks(s, x);
  }

  lemma CascadeKeepsRows(s: Store, x: Id)
    requires Forest(s) && Removable(s, x)
    ensures Cascaded(s, x).runs == map r | r in s.runs && s.runs[r].session != x :: s.runs[r]
  {
    PurgeOrphansNothing(s, x);
    hide Forest, Removable;
    OrphanlessCascade(s, x);
  }

  lemma OrphanlessCascade(s: Store, x: Id)
    requires forall r :: r in s.runs && s.runs[r].session != x && s.runs[r].parentRun.Some? ==>
               s.runs[r].parentRun.value in s.runs && s.runs[s.runs[r].parentRun.value].session != x
    ensures Cascaded(s, x).runs == map r | r in s.runs && s.runs[r].session != x :: s.runs[r]
  {
    var t := Cascaded(s, x);
    var gone := set r | r in s.runs && s.runs[r].session == x;
    forall r | r in t.runs ensures t.runs[r] == s.runs[r] {
      assert s.runs[r].parentRun.Some? ==> s.runs[r].parentRun.value !in gone;
    }
  }

  lemma CascadeKeepsLinks(s: Store, x: Id)
    requires Forest(s) && x in s.sessions && Removable(s, x) && !RootReferenced(s, x)
    ensures Linked(Cascaded(s, x))
  {
    CascadeKeepsRows(s, x);
    PurgeOrphansNothing(s, x);
    var t := Cascaded(s, x);
    CascadedRows(s, x);
    hide Forest, Cascaded, Removable, RootReferenced;
    ForestIsLinked(s);
    CascadeKeepsRowLinks(s, x, t);
    CascadeKeepsParentLinks(s, x, t);
  }

  predicate Lost(s: Store, x: Id, t: Store) {
    && t.sessions == s.sessions - {x}
    && t.runs == (map r | r in s.runs && s.runs[r].session != x :: s.runs[r])
    && t.messages == (map m | m in s.messages && s.messages[m].session != x :: s.messages[m])
    && t.tools == (map c | c in s.tools && s.tools[c].session != x :: s.tools[c])
  }

  lemma CascadeKeepsRowLinks(s: Store, x: Id, t: Store)
    requires Linked(s) && Lost(s, x, t)
    ensures RunLinks(t) && MessageLinks(t) && ToolLinks(t)
  {
    hide ParentLinks;
    assert RunLinks(t) by { hide MessageLinks, ToolLinks; }
    assert MessageLinks(t) by { hide ToolLinks, RunLinks; }
    assert ToolLinks(t) by { hide MessageLinks, RunLinks; }
  }

  lemma CascadeKeepsParentLinks(s: Store, x: Id, t: Store)
    requires Linked(s) && Lost(s, x, t) && Removable(s, x) && !RootReferenced(s, x)
    requires forall r :: r in s.runs && s.runs[r].session != x && s.runs[r].parentRun.Some? ==>
               s.runs[r].parentRun.value in s.runs && s.runs[s.runs[r].parentRun.value].session != x
    ensures ParentLinks(t)
  {
    hide RunLinks, MessageLinks, ToolLinks;
    forall y | y in t.sessions
      ensures (t.sessions[y].parent.Some? ==> t.sessions[y].parent.value in t.sessions)
           && (t.sessions[y].root.Some? ==> t.sessions[y].root.value in t.sessions)
    {
      assert t.sessions[y] == s.sessions[y];
    }
  }

  lemma CascadedRows(s: Store, x: Id)
    ensures var t := Cascaded(s, x);
      && t.sessions == s.sessions - {x}
      && t.messages == (map m | m in s.messages && s.messages[m].session != x :: s.messages[m])
      && t.tools == (map c | c in s.tools && s.tools[c].session != x :: s.tools[c])
  {
  }

  lemma CascadeKeepsSessions(s: Store, x: Id)
    requires Forest(s) && x in s.sessions && Removable(s, x)
    ensures Grounded(SessionParents(Cascaded(s, x))) && Rooted(Cascaded(s, x))
  {
    hide RunLinks, MessageLinks, ToolLinks, Delegated, Grounded, Chain;
    var t := Cascaded(s, x);
    var p, keep := SessionParents(s), t.sessions.Keys;
    var q := map y | y in keep :: p[y];
    assert SessionParents(t) == q;
    assert forall y :: y in keep && p[y].Some? ==> p[y].value in keep;
    RestrictKeepsGrounded(p, keep);
    forall y, path | y in t.sessions && Chain(q, y, path)
      ensures path != [] && t.sessions[y].root == if t.sessions[y].parent.None? then None else Some(path[|path| - 1])
    {
      RestrictedChains(p, keep, y, path);
      ChainStep(q, y, path);
    }
  }

  lemma CascadeKeepsRuns(s: Store, x: Id)
    requires Forest(s) && x in s.sessions && Removable(s, x)
    ensures Grounded(RunParents(Cascaded(s, x))) && Delegated(Cascaded(s, x))
  {
    CascadeKeepsRows(s, x);
    PurgeOrphansNothing(s, x);
    CascadedRows(s, x);
    hide Linked, Rooted, Grounded, Cascaded, Removable, Delegated, RunParents;
    LostKeepsDelegated(s, x, Cascaded(s, x));
    LostKeepsGrounded(s, x, Cascaded(s, x));
  }

  lemma LostKeepsGrounded(s: Store, x: Id, t: Store)
    requires Grounded(RunParents(s)) && Lost(s, x, t)
    requires forall r :: r in s.runs && s.runs[r].session != x && s.runs[r].parentRun.Some? ==>
               s.runs[r].parentRun.value in s.runs && s.runs[s.runs[r].parentRun.value].session != x
    ensures Grounded(RunParents(t))
  {
    hide Grounded;
    var p, keep := RunParents(s), t.runs.Keys;
    assert RunParents(t) == map y | y in keep :: p[y];
    RestrictKeepsGrounded(p, keep);
  }

  lemma LostKeepsDelegated(s: Store, x: Id, t: Store)
    requires Delegated(s) && Lost(s, x, t)
    requires forall r :: r in s.runs && s.runs[r].session != x && s.runs[r].parentRun.Some? ==>
               s.runs[r].parentRun.value in s.runs && s.runs[s.runs[r].parentRun.value].session != x
    ensures Delegated(t)
  {
    forall r | r in t.runs && t.runs[r].parentRun.Some?
      ensures t.runs[r].parentRun.value in t.runs
      ensures t.runs[t.runs[r].parentRun.value].tenant == t.runs[r].tenant
      ensures t.runs[r].session in t.sessions
      ensures t.sessions[t.runs[r].session].parent == Some(t.runs[t.runs[r].parentRun.value].session)
    {
      assert t.runs[r] == s.runs[r];
    }
  }

  // ----------------------------------------------------------- main results

  lemma StepKeepsForest(s: Store, op: Op)
    requires Forest(s) && Sound(s, op)
    ensures Forest(Step(s, op))
  {
    hide Forest, Linked, SameShape, Accept, Transition, RequestCancel, BeginTool, FinishTool, CreateSession;
    hide EditSession, Purge, Backfilled;
    ForestIsLinked(s);
    match op
    case DoAccept(q, c, m) => AcceptKeepsForest(s, q, c, m);
    case DoCreate(x, tenant, agent, title, parent) => CreateKeepsForest(s, x, tenant, agent, title, parent);
    case DoPurge(x, tenant, agent) => PurgeKeepsForest(s, x, tenant, agent);
    case DoFinish(call, o, anchor) =>
      FinishKeepsShape(s, call, o, anchor);
      SameShapeKeeps(s, Step(s, op));
    case DoTransition(run, status, output, m) =>
      TransitionKeepsShape(s, run, status, output, m);
      SameShapeKeeps(s, Step(s, op));
    case DoBegin(call, m) =>
      BeginKeepsShape(s, call, m);
      SameShapeKeeps(s, Step(s, op));
    case _ =>
      QuietOpKeepsShape(s, op);
      SameShapeKeeps(s, Step(s, op));
  }

  lemma ForestIsLinked(s: Store)
    requires Forest(s)
    ensures Linked(s)
  {
  }

  /** Over every run of the store the sessions stay a forest with correct roots, and no parent dangles. */
  lemma {:induction false} RunKeepsForest(s: Store, ops: seq<Op>)
    requires Forest(s) && Legal(s, ops)
    ensures Forest(Run(s, ops))
    decreases |ops|
  {
    hide Forest, Sound;
    if ops != [] {
      StepKeepsForest(s, ops[0]);
      RunKeepsForest(Step(s, ops[0]), ops[1..]);
    }
  }

  lemma EmptyIsForest()
    ensures Forest(Empty)
  {
  }

  // ------------------------------------------------------------ depth walk

  /** Every run of the chain may be read in the tenant. */
  predicate Readable(s: Store, tenant: string, path: seq<string>) {
    forall i :: 0 < i < |path| ==> path[i] in s.runs && s.runs[path[i]].tenant == tenant && !RunQuarantined(s, path[i])
  }

  /** What has been walked so far: distinct runs, each the parent of the one before. */
  ghost predicate Walked(p: Parents, run: Id, walked: seq<Id>) {
    && walked != [] && walked[0] == run
    && (forall i :: 0 <= i < |walked| ==> walked[i] in p)
    && (forall i :: 0 <= i < |walked| - 1 ==> p[walked[i]] == Some(walked[i + 1]))
  }

  /**
   The ancestor walk of `spawn`: the length and the top of the run's chain, or a refusal. The visited set
   makes it end on any table.
   */
  method DepthWalk(s: Store, run: Id, tenant: string) returns (found: Option<(nat, Id)>)
    requires run in s.runs
    ensures forall path :: Chain(RunParents(s), run, path) && Readable(s, tenant, path) ==>
              found == Some((|path|, path[|path| - 1]))
    ensures found.Some? ==>
              exists path :: Chain(RunParents(s), run, path) && Readable(s, tenant,
                path) && found == Some((|path|, path[|path| - 1]))
  {
    hide Chain, Readable, Walked;
    var depth, root, ancestor := 1, run, run;
    var visited: set<Id> := {root};
    ghost var walked: seq<Id> := [run];
    ghost var p := RunParents(s);
    WalkStarts(s, run, tenant);
    while s.runs[ancestor].parentRun.Some?
      invariant visited <= s.runs.Keys && ancestor in s.runs
      invariant depth == |walked| > 0 && walked[depth - 1] == ancestor == root
      invariant forall y :: y in visited <==> y in walked
      invariant Walked(p, run, walked) && Readable(s, tenant, walked)
      decreases |s.runs.Keys - visited|
    {
      var next := s.runs[ancestor].parentRun.value;
      if RunQuarantined(s, next) || next !in s.runs || s.runs[next].tenant != tenant || next in visited {
        forall path | Chain(p, run, path) ensures !Readable(s, tenant, path) {
          RefusedWalk(s, run, tenant, path, walked);
        }
        return None;
      }
      assert next in s.runs.Keys - visited;
      WalkContinues(s, run, tenant, walked, next);
      visited := visited + {next};
      walked := walked + [next];
      ancestor, root, depth := next, next, depth + 1;
    }
    WalkEnds(p, run, walked);
    return Some((depth, root));
  }

  lemma WalkStarts(s: Store, run: Id, tenant: string)
    requires run in s.runs
    ensures Walked(RunParents(s), run, [run]) && Readable(s, tenant, [run])
  {
  }

  lemma WalkContinues(s: Store, run: Id, tenant: string, walked: seq<Id>, next: Id)
    requires Walked(RunParents(s), run, walked) && Readable(s, tenant, walked)
    requires RunParents(s)[walked[|walked| - 1]] == Some(next)
    requires next in s.runs && s.runs[next].tenant == tenant && !RunQuarantined(s, next)
    ensures Walked(RunParents(s), run, walked + [next]) && Readable(s, tenant, walked + [next])
  {
  }

  lemma WalkEnds(p: Parents, run: Id, walked: seq<Id>)
    requires Walked(p, run, walked) && p[walked[|walked| - 1]] == None
    ensures Chain(p, run, walked) && forall path :: Chain(p, run, path) ==> path == walked
  {
    assert Chain(p, run, walked);
    forall path | Chain(p, run, path) ensures path == walked {
      ChainIsUnique(p, run, path, walked);
    }
  }

  lemma RefusedWalk(s: Store, run: Id, tenant: string, path: seq<Id>, walked: seq<Id>)
    requires Chain(RunParents(s), run, path) && Walked(RunParents(s), run, walked)
    requires var up := RunParents(s)[walked[|walked| - 1]];
      && up.Some?
      && (RunQuarantined(s, up.value) || up.value !in s.runs || s.runs[up.value].tenant != tenant || up.value in walked)
    ensures !Readable(s, tenant, path)
  {
    var p := RunParents(s);
    ChainFollows(p, run, path, walked);
    var next := path[|walked|];
    if next in walked {
      var k :| 0 <= k < |walked| && walked[k] == next;
      assert path[k] == walked[k];
      ChainHasNoCycle(p, run, path, k, |walked|);
    }
  }

  /** A chain follows any walk along parents that has not reached the top. */
  lemma {:induction false} ChainFollows(p: Parents, x: string, path: seq<string>, walked: seq<string>)
    requires Chain(p, x, path) && Walked(p, x, walked)
    requires p[walked[|walked| - 1]].Some?
    ensures |walked| < |path| && walked == path[..|walked|] && p[walked[|walked| - 1]] == Some(path[|walked|])
    decreases |walked|
  {
    ChainStep(p, x, path);
    if |walked| > 1 {
      assert p[x] == Some(walked[1]);
      ChainAbove(p, x, path, 1);
      ChainFollows(p, path[1], path[1..], walked[1..]);
      assert walked == [x] + walked[1..] && path[..|walked|] == [x] + path[1..][..|walked| - 1];
    } else {
      assert walked == path[..1];
    }
  }

  /** In a forest the walk succeeds wherever the chain may be read. */
  lemma WalkIsDefined(s: Store, run: Id)
    requires Forest(s) && run in s.runs
    ensures exists path ::
              Chain(RunParents(s), run,
                path) && (forall i :: 0 <= i < |path| ==>
                  path[i] in s.runs && s.runs[path[i]].tenant == s.runs[run].tenant)
  {
    hide Grounded, Chain, Rooted, Linked, Delegated;
    var path := ChainOf(RunParents(s), run);
    SameTenant(s, run, path);
  }

  lemma {:induction false} SameTenant(s: Store, run: Id, path: seq<string>)
    requires Forest(s) && run in s.runs && Chain(RunParents(s), run, path)
    ensures forall i :: 0 <= i < |path| ==> path[i] in s.runs && s.runs[path[i]].tenant == s.runs[run].tenant
    decreases |path|
  {
    hide Grounded, Chain, Rooted, Linked;
    ChainStep(RunParents(s), run, path);
    if |path| > 1 {
      SameTenant(s, path[1], path[1..]);
      forall i | 0 <= i < |path| ensures path[i] in s.runs && s.runs[path[i]].tenant == s.runs[run].tenant {
        if i > 0 { assert path[i] == path[1..][i - 1]; }
      }
    }
  }
}
