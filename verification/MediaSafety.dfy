/**
 Records and files agree in every run: each record finds all its files in storage, and no cleanup job
 names one of them, whatever fails, is retried or happens in between.
 */
module MediaSafety {
  import opened Wrappers
  import opened StorageKeys
  import opened Media
  import Q = CleanupQueue

  /** No job still has one of these keys to delete. Jobs that are finished have no keys left. */
  ghost predicate Spared(q: Q.State, keys: set<Key>) {
    forall j :: 0 <= j < |q.jobs| ==> q.jobs[j].keys !! keys
  }

  /** A record may carry this storage key: its files exist and are nobody's to delete. */
  ghost predicate Usable(s: Store, key: Key) {
    CleanupKeys(key) <= ReachAll(s.used) && FilesOf(key) <= s.files && Spared(s.queue, FilesOf(key))
  }

  /** Everything that is named anywhere stems from a prefix drawn before. */
  ghost predicate Grounded(s: Store) {
    && (forall p :: p in s.used ==> !EndsWith(p, ".pdf"))
    && (forall j :: 0 <= j < |s.queue.jobs| ==>
          s.queue.jobs[j].keys <= s.queue.jobs[j].accepted && s.queue.jobs[j].accepted <= ReachAll(s.used))
  }

  ghost predicate Agree(s: Store) {
    && Grounded(s)
    && (forall id :: id in s.records ==> id < s.nextId && Usable(s, s.records[id].storageKey))
  }

  // ----- queue steps only ever take away -----

  ghost predicate Named(q: Q.State, k: Key) {
    exists j :: 0 <= j < |q.jobs| && k in q.jobs[j].keys
  }

  /** `t` is `s` after queue steps: same database, same jobs with fewer keys, only named files are gone. */
  ghost predicate Shrinks(s: Store, t: Store) {
    && t == s.(queue := t.queue, files := t.files)
    && |t.queue.jobs| == |s.queue.jobs|
    && (forall j :: 0 <= j < |s.queue.jobs| ==>
          && t.queue.jobs[j].keys <= s.queue.jobs[j].keys
          && t.queue.jobs[j].accepted == s.queue.jobs[j].accepted && t.queue.jobs[j].kind == s.queue.jobs[j].kind)
    && t.files <= s.files
    && (forall k :: k in s.files && k !in t.files ==> Named(s.queue, k))
  }

  /** A reply takes keys off the job, and only keys of the job off storage. */
  lemma JobShrinks(job: Q.Job, reply: Q.Reply, now: int)
    ensures var job' := Q.Settle(job, reply, now);
            job'.keys <= job.keys && job'.accepted == job.accepted && job'.kind == job.kind
    ensures Q.RemovedKeys(job, reply) <= job.keys
  {
  }

  lemma AnswerShrinks(s: Store, t: Store, id: nat, reply: Q.Reply, now: int)
    requires id < |s.queue.jobs| && t.queue.jobs == s.queue.jobs[id := Q.Settle(s.queue.jobs[id], reply, now)]
    requires t == s.(queue := t.queue, files := s.files - Q.RemovedKeys(s.queue.jobs[id], reply))
    ensures Shrinks(s, t)
  {
    hide Q.Settle, Q.RemovedKeys;
    JobShrinks(s.queue.jobs[id], reply, now);
    forall k | k in s.files && k !in t.files ensures Named(s.queue, k) {
      assert k in s.queue.jobs[id].keys;
    }
  }

  /** What the steps of a processor do to the job objects. */
  lemma StepJobs(q: Q.State, step: Q.Step)
    requires Q.Enabled(q, step) && (step.Fire? || step.Wake? || step.Answer?)
    ensures Q.Apply(q, step).jobs ==
            if step.Answer? then
              var id := q.running[step.p].job;
              q.jobs[id := Q.Settle(q.jobs[id], step.reply, step.now)]
            else q.jobs
  {
    hide Q.Settle, Q.Retried, Q.LoopHead, Q.Pending;
    Q.LoopHeadKeepsJobs(Q.Resume(q, step), step.now);
  }

  lemma QueueStepShrinks(s: Store, step: Q.Step)
    ensures Shrinks(s, QueueStep(s, step))
  {
    hide Q.Apply, Q.Settle, Q.RemovedKeys;
    if !(step.Enqueue? || step.Destroy?) && Q.Enabled(s.queue, step) {
      StepJobs(s.queue, step);
      if step.Answer? {
        AnswerShrinks(s, QueueStep(s, step), s.queue.running[step.p].job, step.reply, step.now);
      }
    }
  }

  lemma {:induction false} QueueStepsShrink(s: Store, steps: seq<Q.Step>)
    ensures Shrinks(s, QueueSteps(s, steps))
  {
    if steps != [] {
      var m := QueueSteps(s, steps[..|steps| - 1]);
      QueueStepsShrink(s, steps[..|steps| - 1]);
      QueueStepShrinks(m, steps[|steps| - 1]);
    }
  }

  lemma ShrunkUsable(s: Store, t: Store, key: Key)
    requires Shrinks(s, t) && Usable(s, key)
    ensures Usable(t, key)
  {
  }

  lemma ShrunkAgree(s: Store, t: Store)
    requires Shrinks(s, t) && Agree(s)
    ensures Agree(t)
  {
    forall id | id in t.records ensures Usable(t, t.records[id].storageKey) {
      ShrunkUsable(s, t, t.records[id].storageKey);
    }
  }

  // ----- enqueueing -----

  lemma EnqueueShape(s: Store, kind: Q.Kind, keys: set<Key>, now: int)
    ensures var t := Enqueue(s, kind, keys, now);
            t == s.(queue := t.queue) && t.queue.jobs == s.queue.jobs + [Q.NewJob(kind, keys, now)]
  {
  }

  /** A job for keys that no record lives on is safe. */
  lemma EnqueueAgree(s: Store, kind: Q.Kind, keys: set<Key>, now: int)
    requires Agree(s) && keys <= ReachAll(s.used)
    requires forall id :: id in s.records ==> keys !! FilesOf(s.records[id].storageKey)
    ensures Agree(Enqueue(s, kind, keys, now))
  {
    hide FilesOf, CleanupKeys, Reach;
    EnqueueShape(s, kind, keys, now);
  }

  /** A storage key that no record carries any more can be cleaned up. */
  lemma CleanupAgree(s: Store, kind: Q.Kind, dead: Key, now: int)
    requires Agree(s) && !InUse(s.records, dead) && CleanupKeys(dead) <= ReachAll(s.used)
    ensures Agree(Enqueue(s, kind, CleanupKeys(dead), now))
  {
    forall id | id in s.records ensures CleanupKeys(dead) !! FilesOf(s.records[id].storageKey) {
      CleanupMissesOthers(dead, s.records[id].storageKey);
    }
    EnqueueAgree(s, kind, CleanupKeys(dead), now);
  }

  // ----- one attempt of an upload -----

  /** The attempt may run: its prefix was never drawn before, and known content is usable. */
  ghost predicate Ready(s: Store, req: Request, known: Option<Record>, t: Try) {
    && ValidRequest(req) && IsHex(req.checksum)
    && PrefixOf(req, t) !in s.used
    && (known.Some? ==> Usable(s, known.value.storageKey))
  }

  lemma UploadsInReach(m: MediaType, p: Key)
    ensures Uploads(m, p) <= Reach(p)
    ensures !EndsWith(p, ".pdf") ==>
              FilesOf(StorageKeyOf(m, p)) == Uploads(m, p) && CleanupKeys(StorageKeyOf(m, p)) <= Reach(p)
  {
    DocumentName(p);
  }

  /** Drawing a fresh prefix and writing under it disturbs nothing. */
  lemma WriteAgree(s: Store, m: MediaType, p: Key, keys: set<Key>)
    requires Agree(s) && !EndsWith(p, ".pdf") && p !in s.used && keys <= Uploads(m, p)
    ensures var t := s.(files := s.files + keys, used := s.used + {p});
            Agree(t) && Reach(p) <= ReachAll(t.used) && Clear(t, p)
  {
    hide FilesOf, CleanupKeys, Reach;
    var t := s.(files := s.files + keys, used := s.used + {p});
    FreshReach(p, s.used);
    assert ReachAll(s.used) <= ReachAll(t.used);
    forall k | k in Reach(p) ensures k in ReachAll(t.used) {
      assert p in t.used;
    }
    forall id | id in s.records ensures FilesOf(s.records[id].storageKey) !! Reach(p) {
      FilesWithinCleanup(s.records[id].storageKey);
    }
  }

  /** Nothing but the current attempt has to do with the keys of this prefix. */
  ghost predicate Clear(s: Store, p: Key) {
    && (forall j :: 0 <= j < |s.queue.jobs| ==> s.queue.jobs[j].accepted !! Reach(p))
    && (forall id :: id in s.records ==> FilesOf(s.records[id].storageKey) !! Reach(p))
  }

  lemma ShrunkClear(s: Store, t: Store, p: Key)
    requires Shrinks(s, t) && Clear(s, p)
    ensures Clear(t, p)
  {
  }

  /** What holds when the transaction of an attempt starts. */
  lemma WrittenAgree(s: Store, req: Request, known: Option<Record>, t: Try)
    requires Agree(s) && Ready(s, req, known, t)
    ensures var w, p := Written(s, req, known, t), PrefixOf(req, t);
            && Agree(w) && w.records == s.records && w.nextId == s.nextId && w.columns == s.columns
            && (known.Some? ==> w.used == s.used && Usable(w, known.value.storageKey))
            && (known.None? ==> w.used == s.used + {p} && Clear(w, p) && Reach(p) <= ReachAll(w.used)
                                && Wrote(req.mediaType, p, false, t.verdict) <= w.files)
  {
    var p := PrefixOf(req, t);
    var m := req.mediaType;
    PrefixIsNoDocument(req.tenant, Folder(m), t.stamp, req.checksum);
    hide FilesOf, CleanupKeys, Reach, QueueSteps, EndsWith, Folder;
    var s1 := QueueSteps(s, t.before);
    QueueStepsShrink(s, t.before);
    ShrunkAgree(s, s1);
    if known.Some? {
      ShrunkUsable(s, s1, known.value.storageKey);
      QueueStepsShrink(s1, t.after);
      ShrunkAgree(s1, QueueSteps(s1, t.after));
      ShrunkUsable(s1, QueueSteps(s1, t.after), known.value.storageKey);
    } else {
      var keys := Wrote(m, p, false, t.verdict);
      var s2 := s1.(files := s1.files + keys, used := s1.used + {p});
      WriteAgree(s1, m, p, keys);
      var w := QueueSteps(s2, t.after);
      QueueStepsShrink(s2, t.after);
      ShrunkAgree(s2, w);
      ShrunkClear(s2, w, p);
      UploadsInReach(m, p);
      WrittenStay(s2, w, p, keys);
    }
  }

  lemma WrittenStay(s: Store, t: Store, p: Key, keys: set<Key>)
    requires Shrinks(s, t) && Clear(s, p) && Grounded(s) && keys <= Reach(p) && keys <= s.files
    ensures keys <= t.files
  {
  }

  /** The transaction keeps the agreement and reports as dead only a key that no record carries. */
  lemma ReplaceAgree(s: Store, r: Record, existing: Option<nat>)
    requires Agree(s) && Usable(s, r.storageKey) && Replace(s, r, existing).Some?
    ensures var c := Replace(s, r, existing).value;
            && Agree(c.store) && c.store.used == s.used && c.store.files == s.files && c.store.queue == s.queue
            && c.id in c.store.records && c.store.records[c.id] == r
            && (c.dead.Some? ==> !InUse(c.store.records, c.dead.value) && CleanupKeys(c.dead.value) <= ReachAll(s.used))
  {
    hide FilesOf, CleanupKeys, Reach;
    var c := Replace(s, r, existing).value;
    forall id | id in c.store.records ensures Usable(c.store, c.store.records[id].storageKey) {
      assert Usable(s, c.store.records[id].storageKey);
    }
    if c.dead.Some? {
      assert Usable(s, s.records[existing.value].storageKey);
    }
  }

  lemma RollBackAgree(s: Store, p: Key, tracked: set<Key>, fault: Fault, stuck: set<Key>, now: int)
    requires Agree(s) && Clear(s, p) && tracked <= Reach(p) && Reach(p) <= ReachAll(s.used)
    ensures Agree(RollBack(s, tracked, fault, stuck, now))
  {
    hide FilesOf, CleanupKeys, Reach;
    if fault.Retryable? && tracked != {} {
      var s1 := s.(files := s.files - (tracked - stuck));
      forall id | id in s1.records ensures Usable(s1, s1.records[id].storageKey) {
        assert Usable(s, s1.records[id].storageKey);
      }
      if tracked * stuck != {} {
        EnqueueAgree(s1, Q.Rollback, tracked * stuck, now);
      }
    }
  }

  /** Content that is known stays usable while an attempt for it fails. */
  lemma AttemptAgree(s: Store, req: Request, known: Option<Record>, existing: Option<nat>, t: Try)
    requires Agree(s) && Ready(s, req, known, t)
    ensures var a := Attempt(s, req, known, existing, t);
            && Agree(a.store) && a.store.used <= s.used + {PrefixOf(req, t)}
            && (a.Success? && a.dead.Some? ==>
                !InUse(a.store.records, a.dead.value) && CleanupKeys(a.dead.value) <= ReachAll(a.store.used))
            && (a.Threw? && known.Some? ==> Usable(a.store, known.value.storageKey))
            && (a.Threw? ==> a.store.records == s.records && a.store.nextId == s.nextId && a.store.columns == s.columns)
  {
    hide FilesOf, CleanupKeys, Reach;
    var w, p := Written(s, req, known, t), PrefixOf(req, t);
    WrittenAgree(s, req, known, t);
    UploadsInReach(req.mediaType, p);
    PrefixIsNoDocument(req.tenant, Folder(req.mediaType), t.stamp, req.checksum);
    var a := Attempt(s, req, known, existing, t);
    if a.Success? {
      ReplaceAgree(w, NewRecord(req, known, t), existing);
    } else if known.None? {
      RollBackAgree(w, p, Tracked(req.mediaType, p, false, t.verdict), a.fault, t.stuck, t.now);
      RollBackShape(w, Tracked(req.mediaType, p, false, t.verdict), a.fault, t.stuck, t.now);
    }
  }

  lemma RollBackShape(s: Store, tracked: set<Key>, fault: Fault, stuck: set<Key>, now: int)
    ensures var t := RollBack(s, tracked, fault, stuck, now);
            && t == s.(files := t.files, queue := t.queue)
            && (fault.Fatal? || tracked == {} ==> t == s)
            && (fault.Retryable? ==> t.files == s.files - (tracked - stuck))
            && (t.queue.jobs == s.queue.jobs ||
                (tracked * stuck != {} && t.queue.jobs == s.queue.jobs + [Q.NewJob(Q.Rollback, tracked * stuck, now)]))
            && (fault.Retryable? && tracked * stuck != {} ==>
                  t.queue.jobs == s.queue.jobs + [Q.NewJob(Q.Rollback, tracked * stuck, now)])
  {
  }

  // ----- whole requests -----

  lemma {:induction false} UploadAgree(
    s: Store, req: Request, known: Option<Record>, existing: Option<nat>, tries: seq<Try>, n: nat)
    requires Agree(s) && ValidRequest(req) && IsHex(req.checksum) && |tries| == MAX_SERIALIZATION_RETRIES && n < |tries|
    requires FreshPrefixes(s, req, tries[n..]) && (known.Some? ==> Usable(s, known.value.storageKey))
    ensures Agree(UploadFrom(s, req, known, existing, tries, n).0)
    decreases |tries| - n
  {
    hide FilesOf, CleanupKeys, Reach;
    var t := tries[n];
    assert t == tries[n..][0];
    AttemptAgree(s, req, known, existing, t);
    var a := Attempt(s, req, known, existing, t);
    if a.Success? {
      if a.dead.Some? { CleanupAgree(a.store, Q.Replace, a.dead.value, t.now); }
    } else if a.fault.Retryable? && n + 1 < MAX_SERIALIZATION_RETRIES {
      FreshTail(s, a.store, req, tries, n);
      UploadAgree(a.store, req, known, existing, tries, n + 1);
    }
  }

  lemma FreshTail(s: Store, s1: Store, req: Request, tries: seq<Try>, n: nat)
    requires ValidRequest(req) && n + 1 < |tries| && FreshPrefixes(s, req, tries[n..])
    requires s1.used <= s.used + {PrefixOf(req, tries[n])}
    ensures FreshPrefixes(s1, req, tries[n + 1..])
  {
    var now, later := tries[n..], tries[n + 1..];
    assert now[0] == tries[n] && forall i :: 0 <= i < |later| ==> later[i] == now[i + 1];
  }

  lemma {:induction false} RemoveAgree(s: Store, id: nat, tries: seq<RemoveTry>, n: nat)
    requires Agree(s) && |tries| == MAX_SERIALIZATION_RETRIES && n < |tries| && id in s.records
    ensures Agree(RemoveFrom(s, id, tries, n).0)
    decreases |tries| - n
  {
    hide FilesOf, CleanupKeys, Reach;
    var s1 := QueueSteps(s, tries[n].before);
    QueueStepsShrink(s, tries[n].before);
    ShrunkAgree(s, s1);
    var r := s1.records[id];
    var c := ColumnOf(r);
    var fault := if tries[n].fault.None? && c.Some? && c.value !in s1.columns then Some(Fatal) else tries[n].fault;
    if fault.None? {
      var s2 := s1.(records := s1.records - {id},
                    columns := if c.Some? then s1.columns[c.value := None] else s1.columns);
      DropAgree(s1, s2);
      if !InUse(s2.records, r.storageKey) {
        assert Usable(s1, r.storageKey);
        CleanupAgree(s2, Q.Delete, r.storageKey, tries[n].now);
      }
    } else if fault.value.Retryable? && n + 1 < MAX_SERIALIZATION_RETRIES {
      RemoveAgree(s1, id, tries, n + 1);
    }
  }

  lemma DropAgree(s: Store, t: Store)
    requires Agree(s) && t == s.(records := t.records, columns := t.columns)
    requires forall id :: id in t.records ==> id in s.records && t.records[id] == s.records[id]
    ensures Agree(t)
  {
    forall id | id in t.records ensures Usable(t, t.records[id].storageKey) {
      assert Usable(s, s.records[id].storageKey);
    }
  }

  lemma StepAgree(s: Store, op: Op)
    requires Agree(s)
    ensures Agree(Apply(s, op))
  {
    hide FilesOf, CleanupKeys, Reach;
    match op
    case DoQueue(step) =>
      QueueStepShrinks(s, step);
      ShrunkAgree(s, QueueStep(s, step));
    case DoRemove(id, tenant, removals) =>
      if |removals| == MAX_SERIALIZATION_RETRIES && id in s.records {
        RemoveAgree(s, id, removals, 0);
      }
    case DoUpload(req, byContent, existing, tries) =>
      if ValidUpload(s, req, byContent, existing, tries) {
        assert tries[0..] == tries;
        UploadAgree(s, req, Known(s, byContent), existing, tries, 0);
      }
    case DoSetImage(product, url) => ColumnsDoNotMatter(s, s.columns[ProductImage(product) := url]);
  }

  lemma ColumnsDoNotMatter(s: Store, columns: map<Column, Option<string>>)
    requires Agree(s)
    ensures Agree(s.(columns := columns))
  {
    hide FilesOf, CleanupKeys, Reach;
  }

  /** The main theorem: the agreement survives every run of uploads, removals and queue steps. */
  lemma {:induction false} RunAgree(s: Store, ops: seq<Op>)
    requires Agree(s)
    ensures Agree(Run(s, ops))
  {
    if ops != [] {
      RunAgree(s, ops[..|ops| - 1]);
      StepAgree(Run(s, ops[..|ops| - 1]), ops[|ops| - 1]);
    }
  }
}
