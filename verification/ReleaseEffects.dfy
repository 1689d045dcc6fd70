/** What each segment of a principal's calls, releases and hosts does to the shared lease and the hosts' memory. */
module ReleaseEffects {
  import opened Prelude
  import opened PrincipalRelease

  /** A mutation enters on a free machine or as the call that has it; its host lists it and forgets its old doubt. */
  lemma AdmissionIsExact(s: State, c: nat, h: nat, who: Holder)
    requires c !in s.calls && h !in s.dead
    ensures Enabled(s, Admit(c, h, who)) <==> s.lease == None || s.lease == Some(who)
    ensures Enabled(s, Admit(c, h, who)) ==>
              var u := Step(s, Admit(c, h, who));
              && u == s.(calls := s.calls[c := Call(h, who, true, false)], lease := Some(who), active := u.active,
                   retained := u.retained)
              && u.active == s.active[(h, who.callId) := c]
              && (forall k :: k in u.retained <==> k in s.retained && k != (h, who.principal))
  {
  }

  /** A call that ends well gives back a lease that is still its own; one in doubt keeps it and its host notes that. */
  lemma FinishIsExact(s: State, c: nat, doubt: bool)
    requires Enabled(s, Finish(c, doubt))
    ensures var call := s.calls[c]; var u := Step(s, Finish(c, doubt));
      && u == s.(calls := s.calls[c := call.(left := true)], active := u.active, lease := u.lease,
           retained := u.retained)
      && u.active == s.active - {(call.host, call.holder.callId)}
      && (doubt ==> u.lease == s.lease && u.retained == s.retained + {(call.host, call.holder.principal)})
      && (!doubt ==>
            && u.retained == s.retained
            && u.lease == if s.lease == Some(call.holder) then None else s.lease)
  {
  }

  /** A release awaits what its host lists for the principal, and nothing else. */
  lemma BeginningIsExact(s: State, r: nat, h: nat, p: string, c: nat)
    requires Enabled(s, Begin(r, h, p))
    ensures var u := Step(s, Begin(r, h, p));
      && u == s.(releases := u.releases) && u.releases.Keys == s.releases.Keys + {r}
      && (forall k :: k in s.releases && k != r ==> u.releases[k] == s.releases[k])
      && u.releases[r].host == h && u.releases[r].principal == p
      && (c in u.releases[r].awaited
          <==> c in s.calls && s.calls[c].holder.principal == p
               && exists id :: (h, id) in s.active && s.active[(h, id)] == c)
  {
    if c in s.calls && exists id :: (h, id) in s.active && s.active[(h, id)] == c {
      var id :| (h, id) in s.active && s.active[(h, id)] == c;
      assert (h, id).0 == h;
    }
    if c in Listed(s, h, p) {
      var k :| k in s.active && k.0 == h && s.active[k] == c;
      assert k == (h, k.1);
    }
  }

  /**
   It ends when these calls have left, frees the principal's lease unless its host has a doubt, and forgets the
   principal.
   */
  lemma EndingIsExact(s: State, r: nat)
    requires r in s.releases
    ensures Enabled(s, End(r)) <==> forall c :: c in s.releases[r].awaited && c in s.calls ==> s.calls[c].left
    ensures Enabled(s, End(r)) ==>
              var (h, p) := (s.releases[r].host, s.releases[r].principal); var u := Step(s, End(r));
              && u == s.(lease := u.lease, releases := s.releases - {r}, known := s.known - {(h, p)})
              && (u.lease != s.lease <==>
                  s.lease.Some? && s.lease.value.principal == p && (h, p) !in s.retained)
              && (u.lease != s.lease ==> u.lease == None)
  {
  }

  /** A close frees the lease of a principal its host knows, whatever the doubt, once the tasks it lists are done. */
  lemma ClosingIsExact(s: State, h: nat, p: string)
    requires h !in s.dead
    ensures Enabled(s, Close(h, p))
            <==> (h, p) in s.known && forall id :: (h, id) in s.active && s.active[(h, id)] in s.calls ==>
                   !s.calls[s.active[(h, id)]].running
    ensures Enabled(s, Close(h, p)) ==>
              Step(s, Close(h, p))
              == s.(lease := if s.lease.Some? && s.lease.value.principal == p then None else s.lease)
  {
    if forall id :: (h, id) in s.active && s.active[(h, id)] in s.calls ==> !s.calls[s.active[(h, id)]].running {
      forall k | k in s.active && k.0 == h && s.active[k] in s.calls ensures !s.calls[s.active[k]].running {
        assert k == (h, k.1);
      }
    }
  }

  /** The lease outlives its host; nothing else of the host does. */
  lemma CrashIsExact(s: State, h: nat)
    requires Enabled(s, Crash(h))
    ensures var u := Step(s, Crash(h));
      && u.lease == s.lease && u.known == s.known && u.retained == s.retained && u.dead == s.dead + {h}
      && (forall c :: c in u.calls <==> c in s.calls && s.calls[c].host != h)
      && (forall c :: c in u.calls ==> u.calls[c] == s.calls[c])
      && (forall k :: k in u.active <==> k in s.active && k.0 != h)
      && (forall k :: k in u.active ==> u.active[k] == s.active[k])
      && (forall r :: r in u.releases <==> r in s.releases && s.releases[r].host != h)
      && (forall r :: r in u.releases ==> u.releases[r] == s.releases[r])
      && (forall who :: who in u.lost <==>
            who in s.lost || exists c :: c in s.calls && s.calls[c].host == h && s.calls[c].holder == who)
  {
  }

  lemma QuietIsExact(s: State, e: Event)
    requires Enabled(s, e) && (e.Meet? || e.Settle? || e.Expire?)
    ensures Step(s, e) == match e
      case Meet(h, p) => s.(known := s.known + {(h, p)})
      case Settle(c) => s.(calls := s.calls[c := s.calls[c].(running := false)])
      case _ => s.(lease := None)
  {
  }
}
