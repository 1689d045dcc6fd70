/** What each segment of an app session's requests does: what it creates, joins, answers, frees and forgets. */
module McpAppEffects {
  import opened Prelude
  import opened ResultCache
  import opened McpApps

  /** The session, the ledger and the host can take one request more. */
  predicate Room(s: State, l: Limits, h: string) {
    h in s.sessions && |s.sessions[h]| + 1 <= l.requests && s.count + 1 <= l.total && |s.pending| + 1 <= l.active
  }

  /** An identifier that is new to its session gets exactly one execution if there is room, and none otherwise. */
  lemma NewIdentifierExecutes(s: State, l: Limits, h: string, id: string, digest: string, t: nat)
    requires Enabled(s, Ask(h, id, digest, t)) && id !in s.sessions[h]
    ensures var u := Step(s, l, Ask(h, id, digest, t));
      && (!Room(s, l, h) ==> u == s)
      && (Room(s, l, h) ==>
            && u.executions == s.executions + [Key(h, id)] && u.count == s.count + 1 && u.pending == s.pending + {t}
            && u.requests == s.requests[t := Request(Key(h, id), digest, false, false, true, 1, Open)]
            && u.sessions.Keys == s.sessions.Keys && u.sessions[h].Keys == s.sessions[h].Keys + {id}
            && u.sessions[h][id] == t && (forall i :: i in s.sessions[h] ==> u.sessions[h][i] == s.sessions[h][i])
            && (forall g :: g in s.sessions && g != h ==> u.sessions[g] == s.sessions[g])
            && u.results == s.results && u.bytes == s.bytes && u.opening == s.opening && u.used == s.used)
  {
  }

  /** The same request joins the task while it runs; a different one under its identifier does nothing. */
  lemma KnownIdentifierJoins(s: State, l: Limits, h: string, id: string, digest: string, t: nat)
    requires Enabled(s, Ask(h, id, digest, t)) && id in s.sessions[h]
    ensures var task := s.sessions[h][id]; var r := s.requests[task]; var u := Step(s, l, Ask(h, id, digest, t));
      && (digest == r.digest && r.listed && !r.done ==>
            u == s.(requests := s.requests[task := r.(waiters := r.waiters + 1)]))
      && (digest == r.digest && r.listed && r.done ==>
            u == s.(pending := u.pending) && u.pending == if r.waiters == 0 then s.pending - {task} else s.pending)
      && (digest != r.digest || !r.listed ==> u == s)
  {
  }

  /** A task ends once: its record keeps how, and a result that fits is the newest in the cache. */
  lemma EndingIsExact(s: State, l: Limits, t: nat, how: Ending)
    requires Enabled(s, End(t, how))
    ensures var r := s.requests[t]; var u := Step(s, l, End(t, how));
      && u == s.(requests := u.requests, results := u.results, bytes := u.bytes)
      && u.requests == s.requests[t := r.(done := true, listed := if how.CancelledUnstarted? then r.listed else false,
           outcome := match how case Returned(payload) => Result(payload) case Failed => Error
                      case CancelledInside => Cancelled case CancelledUnstarted => r.outcome)]
      && (how.Returned? && |how.payload| <= l.bytes ==>
            u.results != [] && u.results[|u.results| - 1] == Entry(r.key, how.payload))
      && (how.Returned? && |how.payload| > l.bytes ==> u.results == s.results)
      && (!how.Returned? ==> u.results == s.results && u.bytes == s.bytes)
      && u.bytes == s.bytes - Bytes(s.results) + Bytes(u.results)
  {
    hide Evicted, Bytes;
  }

  /** The done callback closes the record, as cancelled if nothing else is known, and frees an unawaited slot. */
  lemma CallbackIsExact(s: State, l: Limits, t: nat)
    requires Enabled(s, Callback(t))
    ensures var r := s.requests[t]; var u := Step(s, l, Callback(t));
      && u == s.(requests := u.requests, pending := u.pending)
      && u.requests == s.requests[t := r.(called := true, listed := false,
           outcome := if r.outcome.Open? then Cancelled else r.outcome)]
      && (t in u.pending <==> t in s.pending && r.waiters > 0)
      && (forall k :: k != t ==> (k in u.pending <==> k in s.pending))
  {
  }

  /** The last waiter of a finished task frees its slot; any other frees none. */
  lemma LeavingIsExact(s: State, l: Limits, t: nat)
    requires Enabled(s, LeaveWaiter(t))
    ensures var r := s.requests[t]; var u := Step(s, l, LeaveWaiter(t));
      && u == s.(requests := u.requests, pending := u.pending)
      && u.requests == s.requests[t := r.(waiters := r.waiters - 1)]
      && (t in u.pending <==> t in s.pending && !(r.done && r.waiters <= 1))
      && (forall k :: k != t ==> (k in u.pending <==> k in s.pending))
  {
  }

  /** Retiring takes the session, its count and its results; everything else stays. */
  lemma RetiringIsExact(s: State, l: Limits, h: string)
    requires Distinct(s.results) && Enabled(s, Retire(h))
    ensures var u := Step(s, l, Retire(h));
      && u == s.(sessions := u.sessions, count := u.count, bytes := u.bytes, results := u.results)
      && u.sessions == s.sessions - {h} && u.count == s.count - |s.sessions[h]|
      && (forall e :: e in u.results <==> e in s.results && e.key.handle != h)
      && u.bytes == s.bytes - Bytes(s.results) + Bytes(u.results)
  {
    RetiredIsSound(s.results, h);
    hide Retired, Bytes;
  }

  /** Openings count against the limit from the start, and a session begins empty under a handle never used. */
  lemma OpeningIsExact(s: State, l: Limits, h: string)
    requires !s.closed
    ensures var u := Step(s, l, BeginOpen);
      u == if |s.sessions| + s.opening < l.sessions then s.(opening := s.opening + 1) else s
    ensures s.opening > 0 ==>
              && Step(s, l, FailOpen) == s.(opening := s.opening - 1)
              && (h !in s.used ==>
                    Step(s, l, EndOpen(h))
                    == s.(sessions := s.sessions[h := map[]], opening := s.opening - 1, used := s.used + {h}))
  {
  }

  /** After the shutdown nothing is opened, asked or replayed any more. */
  lemma ShutdownIsFinal(s: State, l: Limits, e: Event)
    requires s.closed && Enabled(s, e)
    ensures Step(s, l, e).closed && Step(s, l, e).executions == s.executions
    ensures Step(s, l, e).sessions.Keys <= s.sessions.Keys
    ensures !e.BeginOpen? && !e.EndOpen? && !e.Ask? && !e.Replay?
  {
    hide Remembered, Retired, Refreshed, Bytes;
  }

  lemma ShutdownCloses(s: State, l: Limits)
    ensures Step(s, l, Shutdown) == s.(closed := true)
  {
  }
}
