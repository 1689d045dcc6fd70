/** The export service object: its own two tables and a reference to the provenance ledger. */
module ExportSpool {
  import opened Prelude
  import opened ContentPrivacy
  import opened PrivacyTables
  import opened PrivacySpool
  import opened PrivacyStore

  class EncryptedPrivacyExports {
    var requests: map<string, ExportRequest>
    var parts: map<string, Part>
    const ledger: SqliteContentPrivacyStore

    function View(): Spool
      reads this
    {
      Spool(requests, parts)
    }

    constructor (ledger: SqliteContentPrivacyStore)
      ensures View() == Spool(map[], map[]) && this.ledger == ledger
    {
      requests, parts := map[], map[];
      this.ledger := ledger;
    }

    /** Record the copy's lineage first, then write the copy inside the fence. */
    method Export(q: Request, source: Revision, name: string, payload: string) returns (outcome: ExportOutcome)
      modifies this, ledger
      ensures payload == "" ==> View() == old(View()) && ledger.View() == old(ledger.View())
      ensures !Exportable(q, source, payload) ==> View() == old(View()) && ledger.View() == old(ledger.View())
      ensures payload != "" && Exportable(q, source, payload) ==>
                var recorded :=
                  PrivacyTables.Record(old(ledger.View()), Staged(q, name, payload), [], SourceRef(source));
                && ledger.View() == recorded.0
                && (recorded.1.Refused? ==> View() == old(View()) && outcome == LedgerRefused(recorded.1.why))
                && (!recorded.1.Refused? ==>
                      (View(), outcome) == PublishPart(recorded.0, old(View()), q, source, name, payload))
    {
      if !(q.operation.Export? && source.tenant == q.tenant) {
        return Conflict;
      }
      if payload == "" {
        return Done;
      }
      if payload != source.digest {
        return Conflict;
      }
      var staged := Staged(q, name, payload);
      var recorded := ledger.Record(staged, [], SourceRef(source));
      if recorded.Refused? {
        return LedgerRefused(recorded.why);
      }
      var fence := ledger.Publish(staged, [], SourceRef(source));
      if fence.Refused? {
        return LedgerRefused(fence.why);
      }
      if q.id in requests && (requests[q.id].request != q || requests[q.id].state.Revoked?) {
        return Conflict;
      }
      if name in parts {
        var prior := parts[name];
        if prior.request != q || prior.source != source || prior.digest != payload || prior.erased {
          return Conflict;
        }
      }
      if q.id !in requests {
        requests := requests[q.id := ExportRequest(q, Staging, None, false)];
      }
      if name !in parts {
        parts := parts[name := Part(q, source, payload, Some(payload), false)];
      }
      return Done;
    }

    method SealRequest(q: Request) returns (ready: bool)
      modifies this`requests
      ensures (View(), ready) == Seal(ledger.View(), old(View()), q)
    {
      if !q.operation.Export? || q.id !in ledger.jobs || !ledger.jobs[q.id].status.Complete? {
        return false;
      }
      if q.id !in requests {
        requests := requests[q.id := ExportRequest(q, Ready, None, false)];
      } else if requests[q.id].request != q || requests[q.id].state.Revoked? {
        return false;
      } else {
        requests := requests[q.id := requests[q.id].(state := Ready)];
      }
      return true;
    }

    function PartsOf(id: string): set<string>
      reads this
    {
      set name | name in parts && parts[name].request.id == id
    }

    /**
     All or nothing: the bundle holds every part of the request exactly when the request is
     available, the host allows the actor every source, and every part is readable past the fence.
     */
    method Download(id: string, actorAllowed: bool, sourceAllowed: Revision -> bool, newToken: string)
        returns (bundle: Option<map<string, string>>)
      modifies this, ledger
      ensures ledger.View() == old(ledger.View()) && parts == old(parts)
      ensures bundle.Some? <==>
              && Available(old(View()), id) && actorAllowed
              && forall name :: name in PartsOf(id) ==>
                   sourceAllowed(parts[name].source) && Readable(ledger.View(), old(View()), name)
      ensures bundle.Some? ==> bundle.value == map name | name in PartsOf(id) :: parts[name].ciphertext.value
      ensures View() == if bundle.Some? then Issue(old(View()), id, newToken) else old(View())
    {
      if id !in requests || !requests[id].state.Ready? || !actorAllowed {
        return None;
      }
      var names := PartsOf(id);
      if exists name :: name in names && !sourceAllowed(parts[name].source) {
        return None;
      }
      var output := ReadParts(names);
      if output.Some? {
        requests := requests[id := requests[id].(token := Some(newToken))];
      }
      return output;
    }

    /** One part's ciphertext, read inside the ledger's fence. */
    method ReadPart(name: string) returns (text: Option<string>)
      requires name in parts
      modifies ledger
      ensures ledger.View() == old(ledger.View())
      ensures text.Some? <==> Readable(ledger.View(), View(), name)
      ensures text.Some? ==> text == parts[name].ciphertext
    {
      var part := parts[name];
      var fence := ledger.Publish(Staged(part.request, name, part.digest), [], SourceRef(part.source));
      if fence.Refused? || part.erased {
        return None;
      }
      return part.ciphertext;
    }

    /** The ciphertexts of the parts, if every one of them passes the fence. */
    method ReadParts(names: set<string>) returns (output: Option<map<string, string>>)
      requires names <= parts.Keys
      modifies ledger
      ensures ledger.View() == old(ledger.View())
      ensures output.Some? <==> forall name :: name in names ==> Readable(ledger.View(), View(), name)
      ensures output.Some? ==> output.value == map name | name in names :: parts[name].ciphertext.value
    {
      hide Readable, Publish;
      ghost var t, x := ledger.View(), View();
      var read: map<string, string> := map[];
      var unread := names;
      while unread != {}
        invariant unread <= names && ledger.View() == t && View() == x
        invariant forall name :: name in names && name !in unread ==> Readable(t, x, name)
        invariant read.Keys == names - unread
        invariant forall name :: name in read ==> Some(read[name]) == x.parts[name].ciphertext
        decreases |unread|
      {
        var name :| name in unread;
        var text := ReadPart(name);
        if text == None {
          return None;
        }
        read := read[name := text.value];
        unread := unread - {name};
      }
      assert unread == {};
      assert read == map name | name in names :: parts[name].ciphertext.value;
      return Some(read);
    }

    method AcknowledgeDelivery(id: string, token: string) returns (ok: bool)
      modifies this`requests
      ensures (View(), ok) == Acknowledge(old(View()), id, token)
    {
      ok := id in requests && requests[id].token == Some(token);
      if ok {
        requests := requests[id := requests[id].(delivered := true)];
      }
    }

    /** The redact branch of `apply`; the answer is a conflict while the checkpoint is busy. */
    method ApplyRedaction(r: Revision, checkpointBusy: bool) returns (complete: bool)
      modifies this
      ensures View() == Erase(old(View()), r).0
      ensures complete == (Erase(old(View()), r).1 && (r.artifact in old(parts) ==> !checkpointBusy))
    {
      if r.artifact !in parts {
        return true;
      }
      var part := parts[r.artifact];
      if part.digest != r.digest {
        return false;
      }
      parts := parts[r.artifact := part.(ciphertext := None, erased := true)];
      var id := part.request.id;
      if id in requests {
        requests := requests[id := requests[id].(state := Revoked, token := None)];
      }
      return !checkpointBusy;
    }
  }
}
