/** The byte-bounded cache of results, least recently used first. */
module ResultCache {
  import opened Prelude

  datatype Key = Key(handle: string, id: string)

  datatype Entry = Entry(key: Key, payload: string)

  type Cache = seq<Entry>

  function Bytes(c: Cache): nat
    decreases |c|
  {
    if c == [] then 0 else |c[0].payload| + Bytes(c[1..])
  }

  predicate Distinct(c: Cache) {
    forall i, j :: 0 <= i < j < |c| ==> c[i].key != c[j].key
  }

  ghost predicate Holds(c: Cache, k: Key) {
    exists i :: 0 <= i < |c| && c[i].key == k
  }

  /** Entries leave from the front until the new size fits. */
  function Evicted(c: Cache, size: nat, limit: nat): Cache
    decreases |c|
  {
    if c == [] || Bytes(c) + size <= limit then c else Evicted(c[1..], size, limit)
  }

  function Remembered(c: Cache, e: Entry, limit: nat): Cache {
    if |e.payload| > limit then c else Evicted(c, |e.payload|, limit) + [e]
  }

  function Without(c: Cache, i: nat): Cache
    requires i < |c|
  {
    c[..i] + c[i + 1..]
  }

  /** Reading an entry makes it the most recently used. */
  function Refreshed(c: Cache, i: nat): Cache
    requires i < |c|
  {
    Without(c, i) + [c[i]]
  }

  /** The entries of other handles, in order. */
  function Retired(c: Cache, handle: string): Cache
    decreases |c|
  {
    if c == [] then [] else (if c[0].key.handle == handle then [] else [c[0]]) + Retired(c[1..], handle)
  }

  lemma {:induction false} BytesAppend(a: Cache, b: Cache)
    ensures Bytes(a + b) == Bytes(a) + Bytes(b)
    decreases |a|
  {
    if a == [] {
      assert a + b == b;
    } else {
      assert (a + b)[1..] == a[1..] + b;
      BytesAppend(a[1..], b);
    }
  }

  /** What is evicted is the shortest run of oldest entries that makes room. */
  lemma {:induction false} EvictionIsMinimal(c: Cache, size: nat, limit: nat)
    requires size <= limit
    ensures exists k :: 0 <= k <= |c| && Evicted(c, size, limit) == c[k..] && Bytes(c[k..]) + size <= limit
                        && forall j :: 0 <= j < k ==> Bytes(c[j..]) + size > limit
    decreases |c|
  {
    if c == [] || Bytes(c) + size <= limit {
      assert c[0..] == c;
    } else {
      EvictionIsMinimal(c[1..], size, limit);
      var k :| 0 <= k <= |c[1..]| && Evicted(c[1..], size, limit) == c[1..][k..] && Bytes(c[1..][k..]) + size <= limit
               && forall j :: 0 <= j < k ==> Bytes(c[1..][j..]) + size > limit;
      assert c[1..][k..] == c[k + 1..];
      forall j | 0 <= j < k + 1 ensures Bytes(c[j..]) + size > limit {
        if j > 0 { assert c[1..][j - 1..] == c[j..]; } else { assert c[0..] == c; }
      }
    }
  }

  lemma SuffixAppend(c: Cache, k: nat, e: Entry)
    requires Distinct(c) && k <= |c| && !Holds(c, e.key)
    ensures Distinct(c[k..] + [e]) && forall x :: x in c[k..] + [e] ==> x in c || x == e
  {
    var t := c[k..] + [e];
    forall i, j | 0 <= i < j < |t| ensures t[i].key != t[j].key {
      assert t[i] == c[k + i] && Holds(c, c[k + i].key);
    }
  }

  /** The bound and the distinct keys survive every operation on the cache. */
  lemma RememberedIsSound(c: Cache, e: Entry, limit: nat)
    requires Distinct(c) && Bytes(c) <= limit && !Holds(c, e.key)
    ensures var t := Remembered(c, e, limit);
      && Distinct(t) && Bytes(t) <= limit
      && (forall x :: x in t ==> x in c || x == e)
      && (|e.payload| <= limit ==> t != [] && t[|t| - 1] == e)
  {
    hide Distinct, Holds, Evicted, Bytes;
    if |e.payload| <= limit {
      EvictionIsMinimal(c, |e.payload|, limit);
      var k :| 0 <= k <= |c| && Evicted(c, |e.payload|, limit) == c[k..] && Bytes(c[k..]) + |e.payload| <= limit;
      var kept := c[k..];
      BytesAppend(kept, [e]);
      BytesOne(e);
      SuffixAppend(c, k, e);
    }
  }

  lemma BytesOne(e: Entry)
    ensures Bytes([e]) == |e.payload|
  {
  }

  lemma BytesSwap(front: Cache, one: Cache, back: Cache)
    ensures Bytes((front + back) + one) == Bytes(front + (one + back))
  {
    BytesAppend(front, one + back);
    BytesAppend(one, back);
    BytesAppend(front, back);
    BytesAppend(front + back, one);
    hide Bytes;
  }

  lemma RefreshedBytes(c: Cache, i: nat)
    requires i < |c|
    ensures Bytes(Refreshed(c, i)) == Bytes(c)
  {
    hide Bytes;
    BytesSwap(c[..i], [c[i]], c[i + 1..]);
    Rejoined(c, i);
  }

  lemma Rejoined(c: Cache, i: nat)
    requires i < |c|
    ensures c[..i] + ([c[i]] + c[i + 1..]) == c
  {
  }

  /** Where each entry goes and where it came from. */
  lemma RefreshedAt(c: Cache, i: nat, j: nat)
    requires i < |c| && j < |c|
    ensures |Refreshed(c, i)| == |c|
    ensures Refreshed(c, i)[j] == if j < i then c[j] else if j < |c| - 1 then c[j + 1] else c[i]
    ensures Refreshed(c, i)[if j < i then j else if j > i then j - 1 else |c| - 1] == c[j]
  {
  }

  lemma RefreshedIsSound(c: Cache, i: nat)
    requires Distinct(c) && i < |c|
    ensures var t := Refreshed(c, i);
      && Distinct(t) && Bytes(t) == Bytes(c) && |t| == |c| && t[|t| - 1] == c[i]
      && (forall e :: e in t <==> e in c)
      && (forall j :: 0 <= j < i ==> t[j] == c[j]) && (forall j :: i < j < |c| ==> t[j - 1] == c[j])
  {
    hide Refreshed;
    RefreshedBytes(c, i);
    RefreshedAt(c, i, i);
    var t := Refreshed(c, i);
    forall j, k | 0 <= j < k < |t| ensures t[j].key != t[k].key {
      RefreshedAt(c, i, j);
      RefreshedAt(c, i, k);
    }
    forall j | 0 <= j < |c| ensures c[j] in t && t[j] in c && (j < i ==> t[j] == c[j]) && (j > i ==> t[j - 1] == c[j]) {
      RefreshedAt(c, i, j);
    }
  }

  lemma {:induction false} RetiredIsSound(c: Cache, handle: string)
    requires Distinct(c)
    ensures Distinct(Retired(c, handle)) && Bytes(Retired(c, handle)) <= Bytes(c)
    ensures forall e :: e in Retired(c, handle) <==> e in c && e.key.handle != handle
    decreases |c|
  {
    if c != [] {
      var rest := c[1..];
      RetiredIsSound(rest, handle);
      var tail := Retired(rest, handle);
      assert c == [c[0]] + rest;
      if c[0].key.handle != handle {
        var t := Retired(c, handle);
        assert t == [c[0]] + tail;
        forall i, j | 0 <= i < j < |t| ensures t[i].key != t[j].key {
          if i == 0 {
            assert t[j] in tail && t[j] in rest;
            var k :| 0 <= k < |rest| && rest[k] == t[j];
            assert c[k + 1] == t[j];
          }
        }
      } else {
        assert Retired(c, handle) == tail;
      }
    }
  }
}

/**
 The request ledger of app sessions, segment by segment. Retiring expired sessions before an opening, and
 all of them at shutdown, are `Retire` events of their own.
 */
module McpApps {
  import opened Prelude
  import opened ResultCache

  datatype Limits = Limits(sessions: nat, requests: nat, active: nat, total: nat, bytes: nat)

  datatype Outcome = Open | Result(payload: string) | Error | Cancelled

  /** A request and its task. `listed`: the ledger still refers to its task. `called`: its done callback ran. */
  datatype Request = Request(key: Key, digest: string, done: bool, called: bool, listed: bool, waiters: nat,
    outcome: Outcome)

  /** `used` and `executions` are history: every handle issued, and every execution created. */
  datatype State = State(
    sessions: map<string, map<string, nat>>, requests: map<nat, Request>, pending: set<nat>, results: Cache,
    count: int, bytes: int, opening: nat, closed: bool, used: set<string>, executions: seq<Key>)

  const Init := State(map[], map[], {}, [], 0, 0, 0, false, {}, [])

  datatype Ending = Returned(payload: string) | Failed | CancelledInside | CancelledUnstarted

  datatype Event =
    | BeginOpen
    | EndOpen(handle: string)
    | FailOpen
    | Ask(handle: string, id: string, digest: string, task: nat)
    | End(task: nat, how: Ending)
    | Callback(task: nat)
    | LeaveWaiter(task: nat)
    | Replay(handle: string, id: string, at: nat)
    | Retire(handle: string)
    | Shutdown

  predicate Known(s: State, handle: string, id: string) {
    handle in s.sessions && id in s.sessions[handle] && s.sessions[handle][id] in s.requests
  }

  predicate Enabled(s: State, e: Event) {
    match e
    case BeginOpen => !s.closed
    case EndOpen(h) => !s.closed && s.opening > 0 && h !in s.used
    case FailOpen => s.opening > 0
    case Ask(h, id, _, t) =>
      !s.closed && h in s.sessions && t !in s.requests && (id in s.sessions[h] ==> Known(s, h, id))
    case End(t, how) =>
      t in s.requests && !s.requests[t].done && (how.Returned? ==> s.requests[t].key.handle in s.sessions)
    case Callback(t) => t in s.requests && s.requests[t].done && !s.requests[t].called
    case LeaveWaiter(t) => t in s.requests && s.requests[t].waiters > 0
    case Replay(h, id, i) => !s.closed && Known(s, h, id) && i < |s.results| && s.results[i].key == Key(h, id)
    case Retire(h) => h in s.sessions
    case Shutdown => true
  }

  /** `_retire`. */
  function RetiredState(s: State, h: string): State {
    if h !in s.sessions then s
    else
      s.(sessions := s.sessions - {h}, count := s.count - |s.sessions[h]|,
         bytes := s.bytes - (Bytes(s.results) - Bytes(Retired(s.results, h))), results := Retired(s.results, h))
  }

  /** What a request does for an identifier the session has not seen. */
  function Created(s: State, h: string, id: string, digest: string, t: nat): State
    requires h in s.sessions
  {
    var ledger: map<string, nat> := s.sessions[h][id := t];
    s.(sessions := s.sessions[h := ledger],
       requests := s.requests[t := Request(Key(h, id), digest, false, false, true, 1, Open)],
       pending := s.pending + {t}, count := s.count + 1, executions := s.executions + [Key(h, id)])
  }

  predicate HasRoom(s: State, l: Limits, h: string)
    requires h in s.sessions
  {
    |s.sessions[h]| < l.requests && s.count < l.total && |s.pending| < l.active
  }

  /** A repeated identifier joins the running task, replays, or is refused; it never creates anything. */
  function Asked(s: State, l: Limits, h: string, id: string, digest: string, t: nat): State
    requires Enabled(s, Ask(h, id, digest, t))
  {
    if id in s.sessions[h] then
      var u := s.sessions[h][id];
      var r := s.requests[u];
      if r.digest != digest || !r.listed then s
      else if r.done then s.(pending := if r.waiters == 0 then s.pending - {u} else s.pending)
      else s.(requests := s.requests[u := r.(waiters := r.waiters + 1)])
    else if HasRoom(s, l, h) then Created(s, h, id, digest, t)
    else s
  }

  function Ended(s: State, l: Limits, t: nat, how: Ending): State
    requires Enabled(s, End(t, how))
  {
    var r := s.requests[t];
    match how
    case Returned(payload) =>
      var results := Remembered(s.results, Entry(r.key, payload), l.bytes);
      s.(requests := s.requests[t := r.(done := true, listed := false, outcome := Result(payload))],
         results := results, bytes := s.bytes - Bytes(s.results) + Bytes(results))
    case Failed => s.(requests := s.requests[t := r.(done := true, listed := false, outcome := Error)])
    case CancelledInside => s.(requests := s.requests[t := r.(done := true, listed := false, outcome := Cancelled)])
    case CancelledUnstarted => s.(requests := s.requests[t := r.(done := true)])
  }

  function Step(s: State, l: Limits, e: Event): State
    requires Enabled(s, e)
  {
    match e
    case BeginOpen => if |s.sessions| + s.opening >= l.sessions then s else s.(opening := s.opening + 1)
    case EndOpen(h) => s.(sessions := s.sessions[h := map[]], opening := s.opening - 1, used := s.used + {h})
    case FailOpen => s.(opening := s.opening - 1)
    case Ask(h, id, digest, t) => Asked(s, l, h, id, digest, t)
    case End(t, how) => Ended(s, l, t, how)
    case Callback(t) =>
      var r := s.requests[t];
      s.(requests := s.requests[t := r.(called := true, listed := false,
        outcome := if r.outcome.Open? then Cancelled else r.outcome)],
         pending := if r.waiters == 0 then s.pending - {t} else s.pending)
    case LeaveWaiter(t) =>
      var r := s.requests[t];
      s.(requests := s.requests[t := r.(waiters := r.waiters - 1)],
         pending := if r.waiters == 1 && r.done then s.pending - {t} else s.pending)
    case Replay(_, _, i) => s.(results := Refreshed(s.results, i))
    case Retire(h) => RetiredState(s, h)
    case Shutdown => s.(closed := true)
  }

  predicate Legal(s: State, l: Limits, es: seq<Event>)
    decreases |es|
  {
    es == [] || (Enabled(s, es[0]) && Legal(Step(s, l, es[0]), l, es[1..]))
  }

  function Run(s: State, l: Limits, es: seq<Event>): State
    requires Legal(s, l, es)
    decreases |es|
  {
    if es == [] then s else Run(Step(s, l, es[0]), l, es[1..])
  }

  // ------------------------------------------------------------- invariant

  /** The requests of the live sessions. */
  ghost function Live(s: State): set<Key> {
    set h, id | h in s.sessions && id in s.sessions[h] :: Key(h, id)
  }

  /** Each request of a live session has its own record; a record that can still be joined has not run out. */
  predicate Recorded(s: State) {
    && (forall h, id :: h in s.sessions && id in s.sessions[h] ==>
          s.sessions[h][id] in s.requests && s.requests[s.sessions[h][id]].key == Key(h, id))
    && (forall t :: t in s.requests && s.requests[t].key.handle in s.sessions ==>
          s.requests[t].key.id in s.sessions[s.requests[t].key.handle]
            && s.sessions[s.requests[t].key.handle][s.requests[t].key.id] == t)
    && (forall t :: t in s.requests ==> (s.requests[t].called ==> s.requests[t].done && !s.requests[t].listed))
  }

  /** One execution per handle and identifier, and none for a handle that was not issued. */
  predicate ExecutedOnce(s: State) {
    && (forall i, j :: 0 <= i < j < |s.executions| ==> s.executions[i] != s.executions[j])
    && (forall i :: 0 <= i < |s.executions| ==> s.executions[i].handle in s.used)
    && (forall i :: 0 <= i < |s.executions| && s.executions[i].handle in s.sessions ==>
        s.executions[i].id in s.sessions[s.executions[i].handle])
    && s.sessions.Keys <= s.used
    && (forall t :: t in s.requests ==> s.requests[t].key.handle in s.used)
  }

  /** The counters equal the sums they stand for, within their limits. */
  ghost predicate Exact(s: State, l: Limits) {
    && s.count == |Live(s)| <= l.total
    && (forall h :: h in s.sessions ==> |s.sessions[h]| <= l.requests)
    && |s.sessions| + s.opening <= l.sessions
  }

  /** The cache is distinct, counted exactly, bounded, and only holds results of live requests that ended. */
  ghost predicate Cached(s: State, l: Limits) {
    && Distinct(s.results) && s.bytes == Bytes(s.results) <= l.bytes
    && (forall e :: e in s.results ==> HasResult(s, e))
  }

  /** Busy tasks are pending; beyond them only tasks whose done callback is still to run. */
  predicate Pending(s: State, l: Limits) {
    && (forall t :: t in s.requests && (!s.requests[t].done || s.requests[t].waiters > 0) ==> t in s.pending)
    && (forall t :: t in s.pending ==>
        t in s.requests && (!s.requests[t].done || s.requests[t].waiters > 0 || !s.requests[t].called))
    && |s.pending| <= l.active
  }

  ghost predicate Inv(s: State, l: Limits) {
    Recorded(s) && ExecutedOnce(s) && Exact(s, l) && Cached(s, l) && Pending(s, l)
  }

  /** Changing one record without its key leaves the ledger alone. */
  lemma RecordPutKeeps(s: State, t: nat, r: Request)
    requires Recorded(s) && ExecutedOnce(s) && t in s.requests && r.key == s.requests[t].key
    requires (r.called ==> r.done && !r.listed)
    ensures var u := s.(requests := s.requests[t := r]); Recorded(u) && ExecutedOnce(u) && Live(u) == Live(s)
  {
  }

  lemma CreatedKeepsLedger(s: State, h: string, id: string, digest: string, t: nat)
    requires Recorded(s) && ExecutedOnce(s) && h in s.sessions && id !in s.sessions[h] && t !in s.requests
    ensures Recorded(Created(s, h, id, digest, t)) && ExecutedOnce(Created(s, h, id, digest, t))
  {
    var u := Created(s, h, id, digest, t);
    assert Recorded(u) by { hide ExecutedOnce; }
    assert ExecutedOnce(u) by { hide Recorded; }
  }

  lemma CreatedIsLive(s: State, h: string, id: string, digest: string, t: nat)
    requires h in s.sessions && id !in s.sessions[h]
    ensures Live(Created(s, h, id, digest, t)) == Live(s) + {Key(h, id)} && Key(h, id) !in Live(s)
  {
  }

  lemma CreatedKeepsCounts(s: State, l: Limits, h: string, id: string, digest: string, t: nat)
    requires Exact(s, l) && h in s.sessions && id !in s.sessions[h] && HasRoom(s, l, h)
    ensures Exact(Created(s, h, id, digest, t), l)
  {
    hide Live;
    CreatedIsLive(s, h, id, digest, t);
    var u := Created(s, h, id, digest, t);
    assert u.sessions[h].Keys == s.sessions[h].Keys + {id};
    assert |u.sessions[h]| == |u.sessions[h].Keys| && |s.sessions[h]| == |s.sessions[h].Keys|;
    assert u.sessions.Keys == s.sessions.Keys;
    assert |u.sessions| == |u.sessions.Keys| && |s.sessions| == |s.sessions.Keys|;
  }

  // Each part of the invariant looks at some of the fields only.

  lemma SameLedger(s: State, u: State)
    requires u.sessions == s.sessions && u.requests == s.requests && u.executions == s.executions && u.used == s.used
    ensures (Recorded(s) ==> Recorded(u)) && (ExecutedOnce(s) ==> ExecutedOnce(u))
  {
  }

  lemma SameSessionsCount(s: State, u: State, l: Limits)
    requires u.sessions == s.sessions && u.count == s.count && u.opening == s.opening && Exact(s, l)
    ensures Exact(u, l)
  {
    assert Live(u) == Live(s);
    hide Live;
  }

  lemma SamePending(s: State, u: State, l: Limits)
    requires u.requests == s.requests && u.pending == s.pending && Pending(s, l)
    ensures Pending(u, l)
  {
  }

  /** The request behind a cached entry ended with exactly this result. */
  predicate HasResult(s: State, e: Entry) {
    && Known(s, e.key.handle, e.key.id)
    && s.requests[s.sessions[e.key.handle][e.key.id]].done
    && s.requests[s.sessions[e.key.handle][e.key.id]].outcome == Result(e.payload)
  }

  lemma CacheFrame(s: State, u: State, l: Limits)
    requires Cached(s, l) && u.results == s.results && u.bytes == s.bytes
    requires forall e :: HasResult(s, e) ==> HasResult(u, e)
    ensures Cached(u, l)
  {
    hide Distinct, Holds, Bytes;
  }

  lemma CreatedKeepsRest(s: State, l: Limits, h: string, id: string, digest: string, t: nat)
    requires Cached(s, l) && Pending(s, l) && h in s.sessions && id !in s.sessions[h] && t !in s.requests
    requires HasRoom(s, l, h)
    ensures Cached(Created(s, h, id, digest, t), l) && Pending(Created(s, h, id, digest, t), l)
  {
    var u := Created(s, h, id, digest, t);
    assert Pending(u, l) by { hide Cached; }
    hide Pending, Cached;
    CreatedKeepsResults(s, h, id, digest, t);
    hide Created, HasResult;
    CacheFrame(s, u, l);
  }

  lemma CreatedKeepsResults(s: State, h: string, id: string, digest: string, t: nat)
    requires h in s.sessions && id !in s.sessions[h] && t !in s.requests
    ensures var u := Created(s, h, id, digest, t);
      u.results == s.results && u.bytes == s.bytes && forall e :: HasResult(s, e) ==> HasResult(u, e)
  {
  }

  lemma AskKeeps(s: State, l: Limits, h: string, id: string, digest: string, t: nat)
    requires Inv(s, l) && Enabled(s, Ask(h, id, digest, t))
    ensures Inv(Asked(s, l, h, id, digest, t), l)
  {
    hide Recorded, ExecutedOnce, Exact, Cached, Pending;
    if id in s.sessions[h] {
      var u := s.sessions[h][id];
      var r := s.requests[u];
      if r.digest == digest && r.listed {
        JoinKeeps(s, l, u);
      }
    } else if HasRoom(s, l, h) {
      CreatedKeepsLedger(s, h, id, digest, t);
      CreatedKeepsCounts(s, l, h, id, digest, t);
      CreatedKeepsRest(s, l, h, id, digest, t);
    }
  }

  /** Joining a task; one that is done already is left again at once. */
  lemma JoinKeeps(s: State, l: Limits, u: nat)
    requires Inv(s, l) && u in s.requests && s.requests[u].listed
    ensures var r := s.requests[u];
      if r.done then Inv(s.(pending := if r.waiters == 0 then s.pending - {u} else s.pending), l)
      else Inv(s.(requests := s.requests[u := r.(waiters := r.waiters + 1)]), l)
  {
    PendingFacts(s, l, u);
    hide Inv;
    hide Left;
    var r := s.requests[u];
    if !r.done {
      PutKeeps(s, l, u, r.(waiters := r.waiters + 1), false);
      LeftOut(s, u, r.(waiters := r.waiters + 1), false);
    } else {
      PutKeeps(s, l, u, r, r.waiters == 0);
      LeftOut(s, u, r, r.waiters == 0);
    }
  }

  lemma LeftOut(s: State, t: nat, r: Request, leave: bool)
    requires t in s.requests
    ensures var u := s.(requests := s.requests[t := r], pending := Left(s.pending, t, leave));
      && (!leave ==> u == s.(requests := s.requests[t := r]))
      && (r == s.requests[t] ==> u == s.(pending := if leave then s.pending - {t} else s.pending))
  {
    assert r == s.requests[t] ==> s.requests[t := r] == s.requests;
  }

  function Left(pending: set<nat>, t: nat, leave: bool): set<nat> {
    if leave then pending - {t} else pending
  }

  /** A record that changes, with or without leaving the pending set, while the cache still knows what it knew. */
  lemma PutKeeps(s: State, l: Limits, t: nat, r: Request, leave: bool)
    requires Inv(s, l) && t in s.requests && r.key == s.requests[t].key && (r.called ==> r.done && !r.listed)
    requires s.requests[t].done && s.requests[t].outcome.Result? ==> r.done && r.outcome == s.requests[t].outcome
    requires leave ==> r.done && r.waiters == 0
    requires !leave && (!r.done || r.waiters > 0) ==> t in s.pending
    requires !leave && t in s.pending ==> !r.done || r.waiters > 0 || !r.called
    ensures Inv(s.(requests := s.requests[t := r], pending := Left(s.pending, t, leave)), l)
  {
    hide Recorded, ExecutedOnce, Exact, Cached, Pending, HasResult, Live, Left;
    var mid := s.(requests := s.requests[t := r]);
    var u := mid.(pending := Left(s.pending, t, leave));
    PutPending(s, l, t, r, leave);
    RecordPutKeeps(s, t, r);
    SameLedger(mid, u);
    SameSessionsCount(s, u, l);
    PutKeepsResults(s, u, t, r);
    CacheFrame(s, u, l);
  }

  lemma PutPending(s: State, l: Limits, t: nat, r: Request, leave: bool)
    requires Pending(s, l) && t in s.requests
    requires leave ==> r.done && r.waiters == 0
    requires !leave && (!r.done || r.waiters > 0) ==> t in s.pending
    requires !leave && t in s.pending ==> !r.done || r.waiters > 0 || !r.called
    ensures Pending(s.(requests := s.requests[t := r], pending := Left(s.pending, t, leave)), l)
  {
  }

  lemma PutKeepsResults(s: State, u: State, t: nat, r: Request)
    requires t in s.requests && u.sessions == s.sessions && u.requests == s.requests[t := r]
    requires s.requests[t].done && s.requests[t].outcome.Result? ==> r.done && r.outcome == s.requests[t].outcome
    ensures forall e :: HasResult(s, e) ==> HasResult(u, e)
  {
  }

  lemma ReturnKeeps(s: State, l: Limits, t: nat, payload: string)
    requires Inv(s, l) && Enabled(s, End(t, Returned(payload)))
    ensures Inv(Ended(s, l, t, Returned(payload)), l)
  {
    var r := s.requests[t];
    var e := Entry(r.key, payload);
    OpenIsKnown(s, l, t);
    CachedFacts(s, l);
    PendingUntilCalled(s, l, t);
    var next := r.(done := true, listed := false, outcome := Result(payload));
    var mid := s.(requests := s.requests[t := next]);
    EndedWithResult(s, l, t, payload, next);
    assert mid == s.(requests := s.requests[t := next], pending := Left(s.pending, t, false));
    assert HasResult(mid, e);
    hide Inv, Distinct, Holds, Bytes, Remembered, Ended, Enabled, HasResult, Known, Left;
    RememberedIsSound(s.results, e, l.bytes);
    PutKeeps(s, l, t, next, false);
    RememberKeeps(mid, l, Remembered(s.results, e, l.bytes), e);
  }

  lemma EndedWithResult(s: State, l: Limits, t: nat, payload: string, next: Request)
    requires Enabled(s, End(t, Returned(payload))) && s.bytes == Bytes(s.results)
    requires next == s.requests[t].(done := true, listed := false, outcome := Result(payload))
    ensures var results := Remembered(s.results, Entry(s.requests[t].key, payload), l.bytes);
      Ended(s, l, t, Returned(payload)) == s.(requests := s.requests[t := next]).(results := results,
        bytes := Bytes(results))
  {
    hide Remembered, Bytes;
  }

  /** The request of a live session is found under its key, and its result is not cached before it ends. */
  lemma OpenIsKnown(s: State, l: Limits, t: nat)
    requires Inv(s, l) && t in s.requests && !s.requests[t].done && s.requests[t].key.handle in s.sessions
    ensures var k := s.requests[t].key;
      Known(s, k.handle, k.id) && s.sessions[k.handle][k.id] == t && !Holds(s.results, k)
  {
    hide Pending, Exact, ExecutedOnce, Distinct, Bytes;
    var k := s.requests[t].key;
    forall i | 0 <= i < |s.results| ensures s.results[i].key != k {
      assert HasResult(s, s.results[i]);
    }
  }

  lemma CachedFacts(s: State, l: Limits)
    requires Inv(s, l)
    ensures Distinct(s.results) && s.bytes == Bytes(s.results) && Bytes(s.results) <= l.bytes
  {
    hide Pending, Exact, ExecutedOnce, Recorded, Distinct, Holds;
  }

  lemma PendingUntilCalled(s: State, l: Limits, t: nat)
    requires Inv(s, l) && t in s.requests && !s.requests[t].done
    ensures t in s.pending && !s.requests[t].called
  {
    hide Cached, Exact, ExecutedOnce;
  }

  lemma RememberKeeps(s: State, l: Limits, results: Cache, e: Entry)
    requires Inv(s, l) && Distinct(results) && Bytes(results) <= l.bytes && HasResult(s, e)
    requires forall x :: x in results ==> x in s.results || x == e
    ensures Inv(s.(results := results, bytes := Bytes(results)), l)
  {
    hide Distinct, Holds, Recorded, ExecutedOnce, Exact, Pending;
    var t := s.(results := results, bytes := Bytes(results));
    SameLedger(s, t);
    SameSessionsCount(s, t, l);
    SamePending(s, t, l);
    assert forall x :: HasResult(s, x) ==> HasResult(t, x);
    hide HasResult;
  }

  lemma EndKeeps(s: State, l: Limits, t: nat, how: Ending)
    requires Inv(s, l) && Enabled(s, End(t, how))
    ensures Inv(Ended(s, l, t, how), l)
  {
    hide Inv, Remembered;
    PendingUntilCalled(s, l, t);
    var r := s.requests[t];
    match how
    case Returned(payload) => ReturnKeeps(s, l, t, payload);
    case Failed => PutKeeps(s, l, t, r.(done := true, listed := false, outcome := Error), false);
    case CancelledInside => PutKeeps(s, l, t, r.(done := true, listed := false, outcome := Cancelled), false);
    case CancelledUnstarted => PutKeeps(s, l, t, r.(done := true), false);
  }

  lemma CallbackKeeps(s: State, l: Limits, t: nat)
    requires Inv(s, l) && Enabled(s, Callback(t))
    ensures Inv(Step(s, l, Callback(t)), l)
  {
    PendingFacts(s, l, t);
    hide Inv;
    var r := s.requests[t];
    PutKeeps(s, l, t, r.(called := true, listed := false, outcome := if r.outcome.Open? then Cancelled else r.outcome),
      r.waiters == 0);
  }

  lemma LeaveWaiterKeeps(s: State, l: Limits, t: nat)
    requires Inv(s, l) && Enabled(s, LeaveWaiter(t))
    ensures Inv(Step(s, l, LeaveWaiter(t)), l)
  {
    PendingFacts(s, l, t);
    var r := s.requests[t];
    var next := r.(waiters := r.waiters - 1);
    var leave := r.waiters == 1 && r.done;
    assert Step(s, l, LeaveWaiter(t)) == s.(requests := s.requests[t := next], pending := Left(s.pending, t, leave));
    hide Inv, Step, Enabled, Left;
    PutKeeps(s, l, t, next, leave);
  }

  lemma PendingFacts(s: State, l: Limits, t: nat)
    requires Inv(s, l) && t in s.requests
    ensures !s.requests[t].done || s.requests[t].waiters > 0 ==> t in s.pending
    ensures s.requests[t].called ==> s.requests[t].done && !s.requests[t].listed
    ensures t in s.pending ==> !s.requests[t].done || s.requests[t].waiters > 0 || !s.requests[t].called
  {
    hide Cached, Exact, ExecutedOnce;
  }

  lemma RetireKeepsLedger(s: State, h: string)
    requires Recorded(s) && ExecutedOnce(s) && h in s.sessions
    ensures Recorded(RetiredState(s, h)) && ExecutedOnce(RetiredState(s, h))
  {
    var u := RetiredState(s, h);
    assert Recorded(u) by { hide ExecutedOnce; }
    assert ExecutedOnce(u) by { hide Recorded; }
  }

  lemma RetireKeepsCounts(s: State, l: Limits, h: string)
    requires Exact(s, l) && h in s.sessions
    ensures Exact(RetiredState(s, h), l)
  {
    var u := RetiredState(s, h);
    var gone := set id | id in s.sessions[h] :: Key(h, id);
    assert Live(u) == Live(s) - gone && gone <= Live(s);
    KeysOfSession(s.sessions[h], h);
    assert |u.sessions.Keys| == |s.sessions.Keys| - 1 by { assert u.sessions.Keys == s.sessions.Keys - {h}; }
    assert |u.sessions| == |u.sessions.Keys| && |s.sessions| == |s.sessions.Keys|;
  }

  lemma KeysOfSession(ledger: map<string, nat>, h: string)
    ensures |set id | id in ledger :: Key(h, id)| == |ledger|
  {
    SameSize(ledger.Keys, set id | id in ledger :: Key(h, id), h);
    assert |ledger| == |ledger.Keys|;
  }

  lemma {:induction false} SameSize(ids: set<string>, keys: set<Key>, h: string)
    requires keys == set id | id in ids :: Key(h, id)
    ensures |keys| == |ids|
    decreases |ids|
  {
    if ids != {} {
      var id :| id in ids;
      SameSize(ids - {id}, keys - {Key(h, id)}, h);
    }
  }

  lemma RetireKeepsCache(s: State, l: Limits, h: string)
    requires Recorded(s) && Cached(s, l) && h in s.sessions
    ensures Cached(RetiredState(s, h), l)
  {
    RetiredIsSound(s.results, h);
    hide Distinct, Holds, Bytes, Retired;
  }

  lemma RetireKeeps(s: State, l: Limits, h: string)
    requires Inv(s, l) && h in s.sessions
    ensures Inv(RetiredState(s, h), l)
  {
    hide Recorded, ExecutedOnce, Exact, Cached;
    RetireKeepsLedger(s, h);
    RetireKeepsCounts(s, l, h);
    RetireKeepsCache(s, l, h);
  }

  lemma OpenKeeps(s: State, l: Limits, e: Event)
    requires Inv(s, l) && Enabled(s, e) && (e.BeginOpen? || e.FailOpen? || e.Shutdown?)
    ensures Inv(Step(s, l, e), l)
  {
    hide Recorded, ExecutedOnce, Cached, Pending;
    var u := Step(s, l, e);
    SameLedger(s, u);
    SamePending(s, u, l);
    assert Live(u) == Live(s);
    hide Live;
    CacheFrame(s, u, l);
  }

  lemma OpenedKeepsLedger(s: State, h: string, u: State)
    requires Recorded(s) && ExecutedOnce(s) && h !in s.used
    requires u == s.(sessions := s.sessions[h := map[]], opening := u.opening, used := s.used + {h})
    ensures Recorded(u) && ExecutedOnce(u) && h !in s.sessions && Live(u) == Live(s)
  {
    assert ExecutedOnce(u) by { hide Recorded; }
    assert h !in s.sessions;
    assert Recorded(u);
  }

  lemma EndOpenKeeps(s: State, l: Limits, h: string)
    requires Inv(s, l) && Enabled(s, EndOpen(h))
    ensures Inv(Step(s, l, EndOpen(h)), l)
  {
    hide Recorded, ExecutedOnce, Exact, Cached, Pending, Live, HasResult;
    var u := Step(s, l, EndOpen(h));
    OpenedKeepsLedger(s, h, u);
    OpenedKeepsCounts(s, l, h, u);
    SamePending(s, u, l);
    OpenedKeepsResults(s, h, u);
    CacheFrame(s, u, l);
  }

  lemma OpenedKeepsCounts(s: State, l: Limits, h: string, u: State)
    requires Exact(s, l) && h !in s.sessions && s.opening > 0
    requires u.sessions == s.sessions[h := map[]] && u.opening == s.opening - 1 && u.count == s.count
    requires Live(u) == Live(s)
    ensures Exact(u, l)
  {
    hide Live;
    assert u.sessions.Keys == s.sessions.Keys + {h};
    assert |u.sessions| == |u.sessions.Keys| && |s.sessions| == |s.sessions.Keys|;
  }

  lemma OpenedKeepsResults(s: State, h: string, u: State)
    requires h !in s.sessions && u.sessions == s.sessions[h := map[]] && u.requests == s.requests
    ensures forall e :: HasResult(s, e) ==> HasResult(u, e)
  {
  }

  lemma ReplayKeeps(s: State, l: Limits, i: nat)
    requires Inv(s, l) && i < |s.results|
    ensures Inv(s.(results := Refreshed(s.results, i)), l)
  {
    CachedFacts(s, l);
    RefreshedIsSound(s.results, i);
    var u := s.(results := Refreshed(s.results, i));
    hide Distinct, Holds, Refreshed, Bytes, Recorded, ExecutedOnce, Exact, Pending;
    SameLedger(s, u);
    SameSessionsCount(s, u, l);
    SamePending(s, u, l);
    assert forall x :: HasResult(s, x) ==> HasResult(u, x);
    hide HasResult;
  }

  lemma StepKeeps(s: State, l: Limits, e: Event)
    requires Inv(s, l) && Enabled(s, e)
    ensures Inv(Step(s, l, e), l)
  {
    hide Inv, Asked, Ended, RetiredState;
    match e
    case Ask(h, id, digest, t) => AskKeeps(s, l, h, id, digest, t);
    case End(t, how) => EndKeeps(s, l, t, how);
    case Callback(t) => CallbackKeeps(s, l, t);
    case LeaveWaiter(t) => LeaveWaiterKeeps(s, l, t);
    case Replay(_, _, i) => ReplayKeeps(s, l, i);
    case Retire(h) => RetireKeeps(s, l, h);
    case EndOpen(h) => EndOpenKeeps(s, l, h);
    case _ => OpenKeeps(s, l, e);
  }

  lemma {:induction false} RunKeeps(s: State, l: Limits, es: seq<Event>)
    requires Inv(s, l) && Legal(s, l, es)
    ensures Inv(Run(s, l, es), l)
    decreases |es|
  {
    hide Inv, Enabled, Step;
    if es != [] {
      StepKeeps(s, l, es[0]);
      RunKeeps(Step(s, l, es[0]), l, es[1..]);
    }
  }

  lemma InitKeeps(l: Limits)
    ensures Inv(Init, l)
  {
    assert Live(Init) == {};
  }

  // ----------------------------------------------------------- main results

  /** At most one execution is ever created for a handle and request identifier, whatever was evicted. */
  lemma ExecutesAtMostOnce(l: Limits, es: seq<Event>)
    requires Legal(Init, l, es)
    ensures forall i, j :: 0 <= i < j < |Run(Init, l, es).executions| ==>
              Run(Init, l, es).executions[i] != Run(Init, l, es).executions[j]
  {
    InitKeeps(l);
    RunKeeps(Init, l, es);
  }

  /** The counters are the sums they stand for and within their limits. */
  lemma CountersAreExact(l: Limits, es: seq<Event>)
    requires Legal(Init, l, es)
    ensures var s := Run(Init, l, es);
      && s.count == |Live(s)| <= l.total && s.bytes == Bytes(s.results) <= l.bytes && |s.pending| <= l.active
      && (forall t :: t in s.requests && (!s.requests[t].done || s.requests[t].waiters > 0) ==> t in s.pending)
      && ((forall t :: t in s.requests && s.requests[t].done ==> s.requests[t].called) ==>
            forall t :: t in s.pending <==> t in s.requests && (!s.requests[t].done || s.requests[t].waiters > 0))
  {
    InitKeeps(l);
    RunKeeps(Init, l, es);
    var s := Run(Init, l, es);
    PendingIsBusy(s, l);
    hide Pending;
  }

  lemma PendingIsBusy(s: State, l: Limits)
    requires Pending(s, l)
    ensures |s.pending| <= l.active
    ensures forall t :: t in s.requests && (!s.requests[t].done || s.requests[t].waiters > 0) ==> t in s.pending
    ensures (forall t :: t in s.requests && s.requests[t].done ==> s.requests[t].called) ==>
              forall t :: t in s.pending <==> t in s.requests && (!s.requests[t].done || s.requests[t].waiters > 0)
  {
  }

  /** The result of a task that ended is never replaced. */
  lemma ResultStays(s: State, l: Limits, e: Event, t: nat)
    requires Enabled(s, e) && t in s.requests && s.requests[t].done && s.requests[t].outcome.Result?
    ensures var u := Step(s, l, e);
      t in u.requests && u.requests[t].done && u.requests[t].outcome == s.requests[t].outcome
        && u.requests[t].key == s.requests[t].key
  {
    hide Remembered, Retired, Refreshed, Bytes;
  }

  lemma {:induction false} ResultStaysForever(s: State, l: Limits, es: seq<Event>, t: nat)
    requires Legal(s, l, es) && t in s.requests && s.requests[t].done && s.requests[t].outcome.Result?
    ensures var u := Run(s, l, es);
      t in u.requests && u.requests[t].outcome == s.requests[t].outcome && u.requests[t].key == s.requests[t].key
    decreases |es|
  {
    hide Step, Enabled;
    if es != [] {
      ResultStays(s, l, es[0], t);
      ResultStaysForever(Step(s, l, es[0]), l, es[1..], t);
    }
  }

  /** Whatever is replayed for a request is what its one execution returned. */
  lemma ReplayIsTheResult(l: Limits, es: seq<Event>, t: nat, payload: string, more: seq<Event>, i: nat)
    requires Legal(Init, l, es) && Enabled(Run(Init, l, es), End(t, Returned(payload)))
    requires Legal(Step(Run(Init, l, es), l, End(t, Returned(payload))), l, more)
    requires var u := Run(Step(Run(Init, l, es), l, End(t, Returned(payload))), l, more);
      i < |u.results| && u.results[i].key == Run(Init, l, es).requests[t].key
    ensures Run(Step(Run(Init, l, es), l, End(t, Returned(payload))), l, more).results[i].payload == payload
  {
    InitKeeps(l);
    RunKeeps(Init, l, es);
    var s := Run(Init, l, es);
    var ended := Step(s, l, End(t, Returned(payload)));
    StepKeeps(s, l, End(t, Returned(payload)));
    EndRecords(s, l, t, payload);
    RunKeeps(ended, l, more);
    ResultStaysForever(ended, l, more, t);
    hide Step, Run, Legal, Enabled;
    EntryIsTheResult(Run(ended, l, more), l, i, t);
  }

  lemma EndRecords(s: State, l: Limits, t: nat, payload: string)
    requires Enabled(s, End(t, Returned(payload)))
    ensures var u := Step(s, l, End(t, Returned(payload)));
      t in u.requests && u.requests[t].done && u.requests[t].outcome == Result(payload)
        && u.requests[t].key == s.requests[t].key
  {
    hide Remembered, Bytes;
  }

  lemma EntryIsTheResult(s: State, l: Limits, i: nat, t: nat)
    requires Inv(s, l) && i < |s.results| && t in s.requests && s.requests[t].key == s.results[i].key
    requires s.requests[t].outcome.Result?
    ensures s.results[i].payload == s.requests[t].outcome.payload
  {
    hide Exact, Pending, ExecutedOnce, Distinct, Bytes;
    assert HasResult(s, s.results[i]) by { hide Recorded, HasResult; }
  }

  /** A known identifier with other arguments changes nothing, and a repetition never creates an execution. */
  lemma RepetitionCreatesNothing(s: State, l: Limits, h: string, id: string, digest: string, t: nat)
    requires Enabled(s, Ask(h, id, digest, t)) && id in s.sessions[h]
    ensures Asked(s, l, h, id, digest, t).executions == s.executions
    ensures Asked(s, l, h, id, digest, t).sessions == s.sessions
    ensures s.requests[s.sessions[h][id]].digest != digest ==> Asked(s, l, h, id, digest, t) == s
  {
  }

  /** Until its session is retired, a request is remembered with its digest: eviction only forgets the result. */
  lemma {:induction false} TombstonesStay(s: State, l: Limits, es: seq<Event>, h: string, id: string)
    requires Inv(s, l) && Legal(s, l, es) && h in s.sessions && id in s.sessions[h]
    requires forall i :: 0 <= i < |es| ==> es[i] != Retire(h)
    ensures var t := Run(s, l, es);
      && Known(s, h, id) && Known(t, h, id) && t.sessions[h][id] == s.sessions[h][id]
      && t.requests[t.sessions[h][id]].digest == s.requests[s.sessions[h][id]].digest
    decreases |es|
  {
    KnownIsRecorded(s, l, h, id);
    if es != [] {
      StepKeeps(s, l, es[0]);
      TombstoneStays(s, l, es[0], h, id);
      hide Inv, Step, Enabled, Known;
      TombstonesStay(Step(s, l, es[0]), l, es[1..], h, id);
    }
  }

  lemma KnownIsRecorded(s: State, l: Limits, h: string, id: string)
    requires Inv(s, l) && h in s.sessions && id in s.sessions[h]
    ensures Known(s, h, id)
  {
    hide Cached, Exact, ExecutedOnce, Pending;
  }

  /** Sessions keep their other entries, and records their digests. */
  lemma EntriesStay(s: State, l: Limits, e: Event, h: string, id: string)
    requires Inv(s, l) && Enabled(s, e) && Known(s, h, id) && e != Retire(h)
    ensures var t := Step(s, l, e); h in t.sessions && id in t.sessions[h] && t.sessions[h][id] == s.sessions[h][id]
  {
    hide Cached, Exact, Pending, Remembered, Retired, Refreshed, Bytes;
    assert h in s.used by { hide Recorded; }
    hide Recorded, ExecutedOnce;
  }

  /** A record is only ever replaced by one with its digest. */
  predicate SameDigest(s: State, u: State, t: nat) {
    t in s.requests ==> t in u.requests && u.requests[t].digest == s.requests[t].digest
  }

  lemma AskKeepsDigests(s: State, l: Limits, h: string, id: string, digest: string, new': nat, t: nat)
    requires Enabled(s, Ask(h, id, digest, new'))
    ensures SameDigest(s, Asked(s, l, h, id, digest, new'), t)
  {
  }

  lemma EndKeepsDigests(s: State, l: Limits, e: nat, how: Ending, t: nat)
    requires Enabled(s, End(e, how))
    ensures SameDigest(s, Ended(s, l, e, how), t)
  {
    hide Remembered, Bytes;
  }

  lemma DigestsStay(s: State, l: Limits, e: Event, t: nat)
    requires Enabled(s, e)
    ensures SameDigest(s, Step(s, l, e), t)
  {
    hide Asked, Ended, Retired, Refreshed, Bytes;
    match e
    case Ask(h, id, digest, k) => AskKeepsDigests(s, l, h, id, digest, k, t);
    case End(k, how) => EndKeepsDigests(s, l, k, how, t);
    case _ =>
  }

  lemma TombstoneStays(s: State, l: Limits, e: Event, h: string, id: string)
    requires Inv(s, l) && Enabled(s, e) && Known(s, h, id) && e != Retire(h)
    ensures var t := Step(s, l, e);
      Known(t, h, id) && t.sessions[h][id] == s.sessions[h][id]
        && t.requests[t.sessions[h][id]].digest == s.requests[s.sessions[h][id]].digest
  {
    EntriesStay(s, l, e, h, id);
    DigestsStay(s, l, e, s.sessions[h][id]);
    hide Step, Inv, Enabled;
  }
}

/** The service object. */
module McpAppService {
  import opened Prelude
  import opened ResultCache
  import opened McpApps

  class AppResults {
    const limit: nat
    var results: Cache
    var bytes: int

    constructor (limit: nat)
      ensures this.limit == limit && results == [] && bytes == 0 && Valid()
    {
      this.limit := limit;
      results, bytes := [], 0;
    }

    ghost predicate Valid()
      reads this
    {
      Distinct(results) && bytes == Bytes(results) <= limit
    }

    /** `_remember_result`: oldest results leave until the payload fits; one that never fits is not kept. */
    method Remember(key: Key, payload: string)
      requires Valid() && !Holds(results, key)
      modifies this
      ensures Valid() && results == Remembered(old(results), Entry(key, payload), limit)
    {
      RememberedIsSound(results, Entry(key, payload), limit);
      if |payload| > limit {
        return;
      }
      ghost var start := results;
      while results != [] && bytes + |payload| > limit
        invariant bytes == Bytes(results)
        invariant Evicted(start, |payload|, limit) == Evicted(results, |payload|, limit)
        decreases |results|
      {
        bytes := bytes - |results[0].payload|;
        results := results[1..];
      }
      BytesAppend(results, [Entry(key, payload)]);
      assert Bytes([Entry(key, payload)]) == |payload|;
      results := results + [Entry(key, payload)];
      bytes := bytes + |payload|;
    }

    /** The remembered result, which becomes the most recently used. */
    method Recall(key: Key) returns (payload: Option<string>)
      requires Valid()
      modifies this
      ensures Valid() && (payload.Some? <==> Holds(old(results), key))
      ensures payload.None? ==> results == old(results)
      ensures payload.Some? ==>
                exists i :: 0 <= i < |old(results)|
                              && old(results)[i] == Entry(key, payload.value) && results == Refreshed(old(results), i)
    {
      ghost var start := results;
      var i := 0;
      while i < |results|
        invariant i <= |results| && results == start && bytes == old(bytes)
        invariant forall j :: 0 <= j < i ==> results[j].key != key
      {
        if results[i].key == key {
          payload := Some(results[i].payload);
          RefreshedIsSound(results, i);
          assert start[i] == Entry(key, payload.value);
          results := results[..i] + results[i + 1..] + [results[i]];
          return;
        }
        i := i + 1;
      }
      return None;
    }

    /** The part of `_retire` that drops a session's results one by one. */
    method Drop(handle: string)
      requires Valid()
      modifies this
      ensures Valid() && results == Retired(old(results), handle)
    {
      RetiredIsSound(results, handle);
      hide Distinct, Holds, Retired, Bytes, RetiredOnto;
      RetiredOntoAppends([], results, handle);
      assert [] + Retired(results, handle) == Retired(results, handle);
      ghost var start := results;
      var kept: Cache := [];
      var rest := results;
      EmptyCache(kept, handle);
      while rest != []
        invariant results == start && RetiredOnto([], start, handle) == RetiredOnto(kept, rest, handle)
        invariant bytes == Bytes(kept) + Bytes(rest)
        decreases |rest|
      {
        BytesFirst(rest);
        RetiredOntoFirst(kept, rest, handle);
        var e := rest[0];
        rest := rest[1..];
        if e.key.handle == handle {
          bytes := bytes - |e.payload|;
        } else {
          BytesAppend(kept, [e]);
          BytesOne(e);
          kept := kept + [e];
        }
      }
      EmptyCache(kept, handle);
      results := kept;
    }
  }

  function RetiredOnto(kept: Cache, c: Cache, handle: string): Cache
    decreases |c|
  {
    if c == [] then kept
    else RetiredOnto(if c[0].key.handle == handle then kept else kept + [c[0]], c[1..], handle)
  }

  lemma RetiredOntoFirst(kept: Cache, c: Cache, handle: string)
    requires c != []
    ensures RetiredOnto(kept, c, handle)
            == RetiredOnto(if c[0].key.handle == handle then kept else kept + [c[0]], c[1..], handle)
  {
  }

  lemma {:induction false} RetiredOntoAppends(kept: Cache, c: Cache, handle: string)
    ensures RetiredOnto(kept, c, handle) == kept + Retired(c, handle)
    decreases |c|
  {
    if c != [] {
      RetiredOntoAppends(if c[0].key.handle == handle then kept else kept + [c[0]], c[1..], handle);
    }
  }

  lemma EmptyCache(kept: Cache, handle: string)
    ensures Bytes([]) == 0 && RetiredOnto(kept, [], handle) == kept
  {
  }

  lemma BytesFirst(c: Cache)
    requires c != []
    ensures Bytes(c) == |c[0].payload| + Bytes(c[1..])
  {
  }
}
