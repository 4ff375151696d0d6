/** The media service as an object that updates its database, storage and queue step by step. */
module MediaService {
  import opened Wrappers
  import opened StorageKeys
  import opened Media
  import opened MediaSafety
  import opened MediaAccounting
  import opened MediaEffects
  import Q = CleanupQueue

  class Service {
    var records: map<nat, Record>
    var nextId: nat
    var columns: map<Column, Option<string>>
    var files: set<Key>
    var used: set<Key>
    var queue: Q.State

    ghost function Value(): Store
      reads this
    {
      Store(records, nextId, columns, files, used, queue)
    }

    /** The queue processor runs while a request waits. */
    method Await(steps: seq<Q.Step>)
      modifies `files, `queue
      ensures Value() == QueueSteps(old(Value()), steps)
    {
      for i := 0 to |steps|
        invariant Value() == QueueSteps(old(Value()), steps[..i])
      {
        assert steps[..i + 1][..i] == steps[..i];
        var step := steps[i];
        if !step.Enqueue? && !step.Destroy? && Q.Enabled(queue, step) {
          if step.Answer? {
            files := files - Q.RemovedKeys(queue.jobs[queue.running[step.p].job], step.reply);
          }
          queue := Q.Apply(queue, step);
        }
      }
      assert steps[..|steps|] == steps;
    }

    /** `findFirst` for known content; which of several records is found is not known. */
    method FindContent(req: Request) returns (found: Option<nat>)
      ensures FindsContent(Value(), req, found)
    {
      if id :| id in records && records[id].tenant == req.tenant && records[id].checksum == req.checksum {
        found := Some(id);
      } else {
        found := None;
      }
    }

    method FindExisting(req: Request) returns (found: Option<nat>)
      ensures FindsExisting(Value(), req, found)
    {
      if id :| id in records && SameSlot(records[id], req.tenant, req.entityType, req.entityId, req.mediaType) {
        found := Some(id);
      } else {
        found := None;
      }
    }

    /** The transaction of `upload`: create, update the URL column, delete the old record, count its key. */
    method Transact(r: Record, existing: Option<nat>) returns (ok: bool, id: nat, dead: Option<Key>)
      modifies `records, `nextId, `columns
      ensures ok == Replace(old(Value()), r, existing).Some?
      ensures ok ==> Committed(Value(), id, dead) == Replace(old(Value()), r, existing).value
      ensures !ok ==> Value() == old(Value())
      ensures ok && dead.Some? ==> !InUse(records, dead.value)
    {
      ok, id, dead := true, nextId, None;
      var current := if existing.Some? && existing.value in records then existing else None;
      var c := ColumnOf(r);
      if c.Some? {
        if c.value !in columns {
          ok := false;
          return;
        }
        columns := columns[c.value := Some(r.originalUrl)];
      }
      var before := records;
      records := records[nextId := r];
      nextId := nextId + 1;
      if current.Some? {
        var key := before[current.value].storageKey;
        records := records - {current.value};
        if !InUse(records, key) {
          dead := Some(key);
        }
      }
    }

    /** The function that `serializableRetry` runs up to three times. */
    method Attempt(req: Request, known: Option<Record>, existing: Option<nat>, t: Try)
        returns (a: Option<Fault>, id: nat, dead: Option<Key>)
      requires ValidRequest(req)
      modifies this
      ensures Media.Attempt(old(Value()), req, known, existing, t) ==
              if a.Some? then Threw(Value(), a.value) else Success(Value(), id, dead)
    {
      var p := PrefixOf(req, t);
      var tracked: set<Key> := {};
      a, id, dead := None, 0, None;
      Await(t.before);
      if known.None? {
        used := used + {p};
        files := files + Wrote(req.mediaType, p, false, t.verdict);
        tracked := Tracked(req.mediaType, p, false, t.verdict);
      }
      Await(t.after);
      assert Value() == Written(old(Value()), req, known, t);
      if t.verdict.Commits? {
        var ok;
        ok, id, dead := Transact(NewRecord(req, known, t), existing);
        if ok { return; }
        a := Some(Fatal);
      } else {
        a := Some(t.verdict.fault);
      }
      if a.value.Retryable? && tracked != {} {
        files := files - (tracked - t.stuck);
        if tracked * t.stuck != {} {
          queue := Q.Apply(queue, Q.Enqueue(Q.Rollback, tracked * t.stuck, t.now));
        }
      }
    }

    /** `serializableRetry` around the attempts, and the hand-over of the dead key after them. */
    method Retry(req: Request, known: Option<Record>, existing: Option<nat>, tries: seq<Try>) returns (out: Outcome)
      requires ValidRequest(req) && |tries| == MAX_SERIALIZATION_RETRIES
      modifies this
      ensures (Value(), out) == UploadFrom(old(Value()), req, known, existing, tries, 0)
    {
      hide Media.Attempt;
      var n := 0;
      while true
        invariant n < MAX_SERIALIZATION_RETRIES
        invariant UploadFrom(Value(), req, known, existing, tries, n) ==
                  UploadFrom(old(Value()), req, known, existing, tries, 0)
        decreases MAX_SERIALIZATION_RETRIES - n
      {
        var fault, id, dead := Attempt(req, known, existing, tries[n]);
        if fault.None? {
          if dead.Some? {
            queue := Q.Apply(queue, Q.Enqueue(Q.Replace, CleanupKeys(dead.value), tries[n].now));
          }
          out := Created(id);
          return;
        }
        if fault.value.Fatal? || n + 1 == MAX_SERIALIZATION_RETRIES {
          out := Failed(fault.value);
          return;
        }
        n := n + 1;
      }
    }

    /** `upload`: the result for the records that the lookups found, and records and files agree afterwards. */
    method Upload(req: Request, tries: seq<Try>)
        returns (out: Outcome, ghost byContent: Option<nat>, ghost existing: Option<nat>)
      requires ValidRequest(req) && |tries| == MAX_SERIALIZATION_RETRIES
      modifies this
      ensures FindsContent(old(Value()), req, byContent) && FindsExisting(old(Value()), req, existing)
      ensures (Value(), out) == Media.Upload(old(Value()), req, byContent, existing, tries)
      ensures old(Agree(Value())) && IsHex(req.checksum) && FreshPrefixes(old(Value()), req, tries) ==> Agree(Value())
      ensures old(Numbered(Value())) ==> (out == BadRequest <==> !Acceptable(req))
      ensures old(Numbered(Value())) ==> (out.Created? <==> Acceptable(req) && Lands(old(columns), req, tries, 0))
      ensures old(Numbered(Value())) && out.Created? ==>
                out.id == old(nextId) &&
                RecordCreated(old(Value()), Value(), req, Known(old(Value()), byContent), existing, tries, 0)
      ensures old(Numbered(Value())) && !out.Created? ==> SameRows(old(Value()), Value())
    {
      hide Agree, FreshPrefixes, UploadFrom, Acceptable, IsHex, RecordCreated, Lands, Numbered;
      var content := FindContent(req);
      var current := FindExisting(req);
      byContent, existing := content, current;
      ghost var before := Value();
      if Agree(before) && IsHex(req.checksum) && FreshPrefixes(before, req, tries) {
        StepAgree(before, DoUpload(req, content, current, tries));
      }
      if Numbered(before) { UploadEffect(before, req, content, current, tries); }
      if !Acceptable(req) {
        out := BadRequest;
        return;
      }
      out := Retry(req, Known(Store(records, nextId, columns, files, used, queue), content), current, tries);
    }

    /** `remove`, with its retry loop. */
    method Remove(id: nat, tenant: string, tries: seq<RemoveTry>) returns (out: RemoveOutcome)
      requires |tries| == MAX_SERIALIZATION_RETRIES
      modifies this
      ensures (Value(), out) == Media.Remove(old(Value()), id, tenant, tries)
      ensures old(Agree(Value())) ==> Agree(Value())
      ensures out == NotFound <==> old(id !in records || records[id].tenant != tenant)
      ensures out == Removed ==> old(id in records) && RecordRemoved(old(Value()), Value(), id)
      ensures out != Removed ==> Untouched(old(Value()), Value())
    {
      hide Agree, RecordRemoved, Untouched, RemovalLands;
      RemoveEffect(Value(), id, tenant, tries);
      if Agree(Value()) { StepAgree(Value(), DoRemove(id, tenant, tries)); }
      if id !in records || records[id].tenant != tenant {
        out := NotFound;
        return;
      }
      var n := 0;
      while true
        invariant n < MAX_SERIALIZATION_RETRIES && id in records
        invariant RemoveFrom(Value(), id, tries, n) == RemoveFrom(old(Value()), id, tries, 0)
        decreases MAX_SERIALIZATION_RETRIES - n
      {
        QueueStepsShrink(Value(), tries[n].before);
        Await(tries[n].before);
        var r := records[id];
        var c := ColumnOf(r);
        var fault := tries[n].fault;
        if fault.None? && c.Some? && c.value !in columns {
          fault := Some(Fatal);
        }
        if fault.None? {
          if c.Some? {
            columns := columns[c.value := None];
          }
          records := records - {id};
          if !InUse(records, r.storageKey) {
            queue := Q.Apply(queue, Q.Enqueue(Q.Delete, CleanupKeys(r.storageKey), tries[n].now));
          }
          out := Removed;
          return;
        }
        if fault.value.Fatal? || n + 1 == MAX_SERIALIZATION_RETRIES {
          out := RemoveFailed(fault.value);
          return;
        }
        n := n + 1;
      }
    }
  }
}
