/**
 What uploads and removals do to the database and the queue, without reference to their code: the record that
 appears or goes, the URL column that follows it, and the job that gets the files nobody needs any more.
 */
module MediaEffects {
  import opened Wrappers
  import opened StorageKeys
  import opened Media
  import opened MediaSafety
  import opened MediaAccounting
  import Q = CleanupQueue

  /** The column shows records like this one. */
  ghost predicate ShowsIn(r: Record, c: Column) {
    match c
    case ProductImage(product) => r.entityType == "product" && r.mediaType == IMAGE && r.entityId == product
    case TenantLogo(tenant) => r.entityType == "restaurant" && r.mediaType == LOGO && r.tenant == tenant
    case TenantBanner(tenant) => r.entityType == "restaurant" && r.mediaType == BANNER && r.tenant == tenant
  }

  lemma ColumnExactly(r: Record, c: Column)
    ensures ColumnOf(r) == Some(c) <==> ShowsIn(r, c)
  {
  }

  /** The columns of the record hold `url`, and all others are as they were. */
  ghost predicate ColumnsFollow(s: Store, t: Store, r: Record, url: Option<string>) {
    && t.columns.Keys == s.columns.Keys
    && forall c :: c in s.columns ==> t.columns[c] == if ShowsIn(r, c) then url else s.columns[c]
  }

  /** A request of this type is accepted up to so many bytes. */
  lemma AcceptableExactly(req: Request)
    ensures Acceptable(req) <==>
            match req.mediaType
            case DOCUMENT => req.mime == "application/pdf" && req.size <= 10485760
            case IMAGE => req.mime in {"image/jpeg", "image/png", "image/webp"} && req.size <= 5242880
            case BANNER => req.mime in {"image/jpeg", "image/png", "image/webp"} && req.size <= 4194304
            case LOGO => req.mime in {"image/jpeg", "image/png", "image/webp"} && req.size <= 2097152
            case AVATAR => req.mime in {"image/jpeg", "image/png", "image/webp"} && req.size <= 2097152
  {
  }

  // ----- jobs -----

  /** The jobs of before are still there; `t` has `n` more. */
  ghost predicate JobsAdded(s: Store, t: Store, n: nat) {
    Grows(s, t) && |t.queue.jobs| == |s.queue.jobs| + n
  }

  /** The last job is of this kind and was handed every file of the key. */
  ghost predicate HandsOver(t: Store, kind: Q.Kind, key: Key) {
    && t.queue.jobs != []
    && var job := t.queue.jobs[|t.queue.jobs| - 1];
       job.kind == kind && FilesOf(key) <= job.keys && job.keys == job.accepted && job.attempts == 0
  }

  lemma EnqueueEffect(s: Store, kind: Q.Kind, key: Key, now: int)
    ensures var t := Enqueue(s, kind, CleanupKeys(key), now);
            JobsAdded(s, t, 1) && HandsOver(t, kind, key) && SameRows(s, t)
  {
    FilesWithinCleanup(key);
    EnqueueShape(s, kind, CleanupKeys(key), now);
    hide FilesOf, CleanupKeys;
  }

  // ----- removal -----

  /** Another record lives on the same files. */
  ghost predicate Shared(s: Store, id: nat)
    requires id in s.records
  {
    exists other :: other in s.records && other != id && s.records[other].storageKey == s.records[id].storageKey
  }

  /** The record is gone, its column is empty, and its files are handed over unless another record has them. */
  ghost predicate RecordRemoved(s: Store, t: Store, id: nat)
    requires id in s.records
  {
    && t.records == s.records - {id} && t.nextId == s.nextId
    && ColumnsFollow(s, t, s.records[id], None)
    && (if Shared(s, id) then JobsAdded(s, t, 0)
        else JobsAdded(s, t, 1) && HandsOver(t, Q.Delete, s.records[id].storageKey))
  }

  /** What an attempt of the removal fails with: an update of a missing row makes it fail for good. */
  ghost function RemoveFault(s: Store, id: nat, t: RemoveTry): Option<Fault>
    requires id in s.records
  {
    if t.fault.None? && exists c :: ShowsIn(s.records[id], c) && c !in s.columns then Some(Fatal) else t.fault
  }

  ghost predicate RemovalLands(s: Store, id: nat, tries: seq<RemoveTry>, n: nat)
    requires id in s.records
  {
    exists i :: n <= i < |tries| && RemoveFault(s, id, tries[i]).None?
      && forall j :: n <= j < i ==> RemoveFault(s, id, tries[j]) == Some(Retryable)
  }

  lemma RemovalStep(s: Store, id: nat, tries: seq<RemoveTry>, n: nat)
    requires id in s.records && n < |tries|
    ensures var fault := RemoveFault(s, id, tries[n]);
            RemovalLands(s, id, tries, n) <==>
            fault.None? || (fault == Some(Retryable) && RemovalLands(s, id, tries, n + 1))
  {
    hide RemoveFault;
    if RemoveFault(s, id, tries[n]) == Some(Retryable) && RemovalLands(s, id, tries, n + 1) {
      var i :| n + 1 <= i < |tries| && RemoveFault(s, id, tries[i]).None?
               && forall j :: n + 1 <= j < i ==> RemoveFault(s, id, tries[j]) == Some(Retryable);
      assert forall j :: n <= j < i ==> RemoveFault(s, id, tries[j]) == Some(Retryable);
    }
  }

  /** The same rows mean the same fate. */
  lemma SameFate(s: Store, t: Store, id: nat, tries: seq<RemoveTry>, n: nat)
    requires SameRows(s, t) && id in s.records
    ensures RemovalLands(s, id, tries, n) <==> RemovalLands(t, id, tries, n)
  {
    hide ShowsIn;
    assert forall r :: RemoveFault(s, id, r) == RemoveFault(t, id, r);
    hide RemoveFault;
  }

  /** The rows of the successful transaction, then its job. */
  ghost function Dropped(s: Store, id: nat): Store
    requires id in s.records
  {
    var c := ColumnOf(s.records[id]);
    s.(records := s.records - {id}, columns := if c.Some? then s.columns[c.value := None] else s.columns)
  }

  lemma DroppedEffect(s: Store, id: nat)
    requires id in s.records && (ColumnOf(s.records[id]).Some? ==> ColumnOf(s.records[id]).value in s.columns)
    ensures var t := Dropped(s, id);
            && ColumnsFollow(s, t, s.records[id], None)
            && (InUse(t.records, s.records[id].storageKey) <==> Shared(s, id))
  {
    var t := Dropped(s, id);
    forall c | c in s.columns ensures t.columns[c] == if ShowsIn(s.records[id], c) then None else s.columns[c] {
      ColumnExactly(s.records[id], c);
    }
    hide ColumnOf, ShowsIn;
    if Shared(s, id) {
      var other :| other in s.records && other != id && s.records[other].storageKey == s.records[id].storageKey;
      assert other in t.records;
    }
  }

  lemma RemoveFaultIs(s: Store, id: nat, t: RemoveTry)
    requires id in s.records
    ensures var c := ColumnOf(s.records[id]);
            RemoveFault(s, id, t) == if t.fault.None? && c.Some? && c.value !in s.columns then Some(Fatal) else t.fault
  {
    forall c ensures ColumnOf(s.records[id]) == Some(c) <==> ShowsIn(s.records[id], c) {
      ColumnExactly(s.records[id], c);
    }
    hide ColumnOf, ShowsIn;
  }

  /** Rows and number of jobs are as they were. */
  ghost predicate Untouched(s: Store, t: Store) {
    SameRows(s, t) && JobsAdded(s, t, 0)
  }

  ghost predicate RemovesExactly(s: Store, id: nat, tries: seq<RemoveTry>, n: nat)
    requires |tries| == MAX_SERIALIZATION_RETRIES && n < |tries| && id in s.records
  {
    var (t, out) := RemoveFrom(s, id, tries, n);
    if RemovalLands(s, id, tries, n) then out == Removed && RecordRemoved(s, t, id)
    else out.RemoveFailed? && Untouched(s, t)
  }

  lemma UntouchedThen(s: Store, m: Store, t: Store, id: nat)
    requires Untouched(s, m) && id in s.records
    ensures RecordRemoved(m, t, id) ==> RecordRemoved(s, t, id)
    ensures Untouched(m, t) ==> Untouched(s, t)
  {
    hide FilesOf, ShowsIn;
  }

  lemma QueueUntouched(s: Store, steps: seq<Q.Step>)
    ensures Untouched(s, QueueSteps(s, steps))
  {
    QueueStepsShrink(s, steps);
  }

  /** The last part of a removal that lands. */
  lemma LandedRemoval(s: Store, id: nat, now: int)
    requires id in s.records && (ColumnOf(s.records[id]).Some? ==> ColumnOf(s.records[id]).value in s.columns)
    ensures var t, key := Dropped(s, id), s.records[id].storageKey;
            RecordRemoved(s, if InUse(t.records, key) then t else Enqueue(t, Q.Delete, CleanupKeys(key), now), id)
  {
    DroppedEffect(s, id);
    EnqueueEffect(Dropped(s, id), Q.Delete, s.records[id].storageKey, now);
    hide FilesOf, CleanupKeys, ColumnOf, ShowsIn, Enqueue;
  }

  lemma {:induction false} RemoveFromEffect(s: Store, id: nat, tries: seq<RemoveTry>, n: nat)
    requires |tries| == MAX_SERIALIZATION_RETRIES && n < |tries| && id in s.records
    ensures RemovesExactly(s, id, tries, n)
    decreases |tries| - n
  {
    var m, r := QueueSteps(s, tries[n].before), s.records[id];
    QueueUntouched(s, tries[n].before);
    SameFate(s, m, id, tries, n);
    RemoveFaultIs(m, id, tries[n]);
    RemovalStep(m, id, tries, n);
    hide QueueSteps, RemovalLands, RemoveFault, ColumnOf, CleanupKeys, Enqueue, RecordRemoved, Grows;
    if RemoveFault(m, id, tries[n]).None? {
      LandedRemoval(m, id, tries[n].now);
      UntouchedThen(s, m, RemoveFrom(s, id, tries, n).0, id);
    } else if RemoveFault(m, id, tries[n]) == Some(Retryable) && n + 1 < MAX_SERIALIZATION_RETRIES {
      RemoveFromEffect(m, id, tries, n + 1);
      UntouchedThen(s, m, RemoveFrom(s, id, tries, n).0, id);
    } else {
      NeverLands(m, id, tries);
    }
  }

  lemma NeverLands(s: Store, id: nat, tries: seq<RemoveTry>)
    requires id in s.records
    ensures !RemovalLands(s, id, tries, |tries|)
  {
  }

  /** What a removal does, for every outcome. */
  lemma RemoveEffect(s: Store, id: nat, tenant: string, tries: seq<RemoveTry>)
    requires |tries| == MAX_SERIALIZATION_RETRIES
    ensures var (t, out) := Remove(s, id, tenant, tries);
            && (out == NotFound <==> id !in s.records || s.records[id].tenant != tenant)
            && (out == Removed <==> id in s.records && s.records[id].tenant == tenant && RemovalLands(s, id, tries, 0))
            && (out == Removed ==> RecordRemoved(s, t, id))
            && (out != Removed ==> Untouched(s, t))
  {
    if id in s.records && s.records[id].tenant == tenant {
      RemoveFromEffect(s, id, tries, 0);
    }
    hide RemoveFrom, RemovalLands, RecordRemoved;
  }

  // ----- upload -----

  /** The record describes the request, and its files are those of the known content or of this attempt. */
  ghost predicate Describes(r: Record, req: Request, known: Option<Record>, t: Try)
    requires ValidRequest(req)
  {
    && r.tenant == req.tenant && r.entityType == req.entityType && r.entityId == req.entityId
    && r.mediaType == req.mediaType && r.checksum == req.checksum
    && if known.Some? then r.storageKey == known.value.storageKey && r.originalUrl == known.value.originalUrl
       else if req.mediaType == DOCUMENT then
         r.storageKey == PrefixOf(req, t) + ".pdf" && r.originalUrl == "/uploads/" + r.storageKey
       else r.storageKey == PrefixOf(req, t) && r.originalUrl == "/uploads/" + r.storageKey + "-original.webp"
  }

  /** Ids are given out in order. */
  ghost predicate Numbered(s: Store) {
    forall id :: id in s.records ==> id < s.nextId
  }

  /** The lookup found the record that the upload is to replace, if there is one. */
  ghost predicate Current(s: Store, req: Request, existing: Option<nat>) {
    FindsExisting(s, req, existing) && Numbered(s)
  }

  /** Its storage key, if no record carries it afterwards. */
  ghost function DeadKey(s: Store, t: Store, existing: Option<nat>): Option<Key> {
    if existing.Some? && existing.value in s.records
       && forall id :: id in t.records ==> t.records[id].storageKey != s.records[existing.value].storageKey
    then Some(s.records[existing.value].storageKey) else None
  }

  /** The new record takes the place of the old one, and the columns follow. */
  ghost predicate RowsReplaced(
    s: Store, t: Store, req: Request, known: Option<Record>, existing: Option<nat>, i: Try)
    requires ValidRequest(req)
  {
    && t.nextId == s.nextId + 1
    && t.records.Keys == s.records.Keys - (if existing.Some? then {existing.value} else {}) + {s.nextId}
    && (forall id :: id in t.records && id != s.nextId ==> t.records[id] == s.records[id])
    && Describes(t.records[s.nextId], req, known, i)
    && ColumnsFollow(s, t, t.records[s.nextId], Some(t.records[s.nextId].originalUrl))
  }

  /** Attempts that fail add jobs of kind ROLLBACK; a dead key adds one of kind REPLACE, and it is the last. */
  ghost predicate JobsFollow(s: Store, t: Store, dead: Option<Key>) {
    && Grows(s, t)
    && (forall j :: |s.queue.jobs| <= j < |t.queue.jobs| - (if dead.Some? then 1 else 0) ==>
          t.queue.jobs[j].kind == Q.Rollback)
    && (dead.Some? ==> |t.queue.jobs| > |s.queue.jobs| && HandsOver(t, Q.Replace, dead.value))
  }

  lemma NewRecordDescribes(req: Request, known: Option<Record>, t: Try)
    requires ValidRequest(req)
    ensures Describes(NewRecord(req, known, t), req, known, t)
  {
    hide PrefixOf;
  }

  lemma ReplaceEffect(s: Store, r: Record, req: Request, known: Option<Record>, existing: Option<nat>, i: Try)
    requires ValidRequest(req) && Current(s, req, existing) && Describes(r, req, known, i)
    requires Replace(s, r, existing).Some?
    ensures var c := Replace(s, r, existing).value;
            && RowsReplaced(s, c.store, req, known, existing, i) && c.id == s.nextId
            && c.dead == DeadKey(s, c.store, existing) && c.store.queue == s.queue
  {
    var c := Replace(s, r, existing).value;
    forall d | d in s.columns
      ensures c.store.columns[d] == if ShowsIn(r, d) then Some(r.originalUrl) else s.columns[d]
    {
      ColumnExactly(r, d);
    }
    hide ColumnOf, ShowsIn, Describes;
    if existing.Some? {
      var key := s.records[existing.value].storageKey;
      assert InUse(c.store.records, key) <==>
             !(forall id :: id in c.store.records ==> c.store.records[id].storageKey != key);
    }
  }

  /** An attempt that commits. */
  lemma CommitEffect(s: Store, req: Request, known: Option<Record>, existing: Option<nat>, t: Try)
    requires ValidRequest(req) && Current(s, req, existing) && FaultOf(s.columns, req, t).None?
    ensures var a := Attempt(s, req, known, existing, t);
            && a.Success? && a.id == s.nextId && RowsReplaced(s, a.store, req, known, existing, t)
            && a.dead == DeadKey(s, a.store, existing) && JobsAdded(s, a.store, 0)
  {
    AttemptFault(s, req, known, existing, t);
    var w, r := Written(s, req, known, t), NewRecord(req, known, t);
    WrittenRows(s, req, known, t);
    WrittenJobs(s, req, known, t);
    NewRecordDescribes(req, known, t);
    RowsOfWritten(s, w, req, existing);
    hide Written, NewRecord, Describes, Replace, FaultOf, Finds, Wrote;
    ReplaceEffect(w, r, req, known, existing, t);
  }

  lemma RowsOfWritten(s: Store, w: Store, req: Request, existing: Option<nat>)
    requires SameRows(s, w) && Current(s, req, existing)
    ensures Current(w, req, existing)
  {
  }

  lemma WrittenJobs(s: Store, req: Request, known: Option<Record>, t: Try)
    requires ValidRequest(req)
    ensures JobsAdded(s, Written(s, req, known, t), 0)
  {
    hide Wrote;
    var s1 := QueueSteps(s, t.before);
    QueueStepsShrink(s, t.before);
    var p := PrefixOf(req, t);
    QueueStepsShrink(if known.Some? then s1
                     else s1.(files := s1.files + Wrote(req.mediaType, p, false, t.verdict), used := s1.used + {p}),
                     t.after);
  }

  /** An attempt that fails. */
  lemma FailedAttemptEffect(s: Store, req: Request, known: Option<Record>, existing: Option<nat>, t: Try)
    requires ValidRequest(req) && FaultOf(s.columns, req, t).Some?
    ensures var a := Attempt(s, req, known, existing, t);
            && a.Threw? && Some(a.fault) == FaultOf(s.columns, req, t)
            && SameRows(s, a.store) && JobsFollow(s, a.store, None)
  {
    AttemptFault(s, req, known, existing, t);
    WrittenJobs(s, req, known, t);
    hide Written, Tracked, FaultOf, Replace;
    var w, a := Written(s, req, known, t), Attempt(s, req, known, existing, t);
    RollBackShape(w, Tracked(req.mediaType, PrefixOf(req, t), known.Some?, t.verdict), a.fault, t.stuck, t.now);
  }

  /** Attempt `i` is the one that commits. */
  ghost predicate Landing(columns: map<Column, Option<string>>, req: Request, tries: seq<Try>, n: nat, i: nat) {
    n <= i < |tries| && RetriedUpTo(columns, req, tries, n, i) && FaultOf(columns, req, tries[i]).None?
  }

  ghost predicate RecordCreated(
    s: Store, t: Store, req: Request, known: Option<Record>, existing: Option<nat>, tries: seq<Try>, n: nat)
    requires ValidRequest(req)
  {
    && JobsFollow(s, t, DeadKey(s, t, existing))
    && exists i: nat :: Landing(s.columns, req, tries, n, i) && RowsReplaced(s, t, req, known, existing, tries[i])
  }

  ghost predicate UploadsExactly(
    s: Store, req: Request, known: Option<Record>, existing: Option<nat>, tries: seq<Try>, n: nat)
    requires ValidRequest(req) && |tries| == MAX_SERIALIZATION_RETRIES && n < |tries|
  {
    var (t, out) := UploadFrom(s, req, known, existing, tries, n);
    if Lands(s.columns, req, tries, n)
    then out == Created(s.nextId) && RecordCreated(s, t, req, known, existing, tries, n)
    else out.Failed? && SameRows(s, t) && JobsFollow(s, t, None)
  }

  /** The last part of an upload that lands. */
  lemma HandOverEffect(s: Store, m: Store, dead: Option<Key>, now: int)
    requires JobsAdded(s, m, 0)
    ensures var t := if dead.Some? then Enqueue(m, Q.Replace, CleanupKeys(dead.value), now) else m;
            JobsFollow(s, t, dead) && SameRows(m, t)
  {
    if dead.Some? { EnqueueEffect(m, Q.Replace, dead.value, now); }
    hide FilesOf, CleanupKeys, Enqueue;
  }

  /** What follows a failed attempt. */
  lemma AfterFailure(
    s: Store, m: Store, t: Store, req: Request, known: Option<Record>, existing: Option<nat>, tries: seq<Try>, n: nat)
    requires ValidRequest(req) && SameRows(s, m) && JobsFollow(s, m, None) && n < |tries|
    requires FaultOf(s.columns, req, tries[n]) == Some(Retryable)
    ensures RecordCreated(m, t, req, known, existing, tries, n + 1) ==>
            RecordCreated(s, t, req, known, existing, tries, n)
    ensures SameRows(m, t) && JobsFollow(m, t, None) ==> SameRows(s, t) && JobsFollow(s, t, None)
  {
    hide FilesOf, ShowsIn, Describes, FaultOf, RetriedUpTo;
    assert DeadKey(m, t, existing) == DeadKey(s, t, existing);
    hide DeadKey;
    if RecordCreated(m, t, req, known, existing, tries, n + 1) {
      var i: nat :| Landing(m.columns, req, tries, n + 1, i) && RowsReplaced(m, t, req, known, existing, tries[i]);
      RetriedFrom(s.columns, req, tries, n, i);
      assert Landing(s.columns, req, tries, n, i) && RowsReplaced(s, t, req, known, existing, tries[i]);
    }
  }

  lemma {:induction false} UploadFromEffect(
    s: Store, req: Request, known: Option<Record>, existing: Option<nat>, tries: seq<Try>, n: nat)
    requires ValidRequest(req) && |tries| == MAX_SERIALIZATION_RETRIES && n < |tries| && Current(s, req, existing)
    ensures UploadsExactly(s, req, known, existing, tries, n)
    decreases |tries| - n
  {
    hide Current, Lands, FaultOf, Attempt, CleanupKeys, Enqueue, RowsReplaced, JobsFollow, DeadKey, Grows, HandsOver;
    var t := tries[n];
    LandsStep(s.columns, req, tries, n);
    var a := Attempt(s, req, known, existing, t);
    var u := UploadFrom(s, req, known, existing, tries, n).0;
    if FaultOf(s.columns, req, t).None? {
      CommitEffect(s, req, known, existing, t);
      HandOverEffect(s, a.store, a.dead, t.now);
      RowsThen(s, a.store, u, req, known, existing, t);
      RetriedNone(s.columns, req, tries, n);
      assert Landing(s.columns, req, tries, n, n);
    } else {
      FailedAttemptEffect(s, req, known, existing, t);
      if a.fault.Retryable? && n + 1 < MAX_SERIALIZATION_RETRIES {
        RowsOfWritten(s, a.store, req, existing);
        UploadFromEffect(a.store, req, known, existing, tries, n + 1);
        AfterFailure(s, a.store, u, req, known, existing, tries, n);
      } else {
        NoneAfterLast(s.columns, req, known.Some?, tries);
      }
    }
  }

  lemma RowsThen(
    s: Store, m: Store, t: Store, req: Request, known: Option<Record>, existing: Option<nat>, i: Try)
    requires ValidRequest(req) && RowsReplaced(s, m, req, known, existing, i) && SameRows(m, t)
    ensures RowsReplaced(s, t, req, known, existing, i) && DeadKey(s, t, existing) == DeadKey(s, m, existing)
  {
    hide Describes, ShowsIn;
  }

  /** What an upload does, for every outcome. */
  lemma UploadEffect(s: Store, req: Request, byContent: Option<nat>, existing: Option<nat>, tries: seq<Try>)
    requires ValidRequest(req) && |tries| == MAX_SERIALIZATION_RETRIES && Current(s, req, existing)
    ensures var (t, out) := Upload(s, req, byContent, existing, tries);
            && (out == BadRequest <==> !Acceptable(req))
            && (out.Created? <==> Acceptable(req) && Lands(s.columns, req, tries, 0))
            && (out.Created? ==> out.id == s.nextId
                                 && RecordCreated(s, t, req, Known(s, byContent), existing, tries, 0))
            && (!out.Created? ==> SameRows(s, t) && JobsFollow(s, t, None))
  {
    hide Lands, Acceptable, UploadFrom, Current, RecordCreated;
    UploadFromEffect(s, req, Known(s, byContent), existing, tries, 0);
  }
}
