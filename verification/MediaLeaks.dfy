/**
 No file is lost: every file in storage belongs to a record, is still to be deleted by a job, or was abandoned
 by one. In every run this holds exactly if no upload fails for good after it wrote files; a file that is lost
 once stays lost.
 */
module MediaLeaks {
  import opened Wrappers
  import opened StorageKeys
  import opened Media
  import opened MediaSafety
  import opened MediaAccounting
  import Q = CleanupQueue

  ghost predicate OfRecord(s: Store, k: Key) {
    exists id :: id in s.records && k in FilesOf(s.records[id].storageKey)
  }

  /** A job has the key to delete, or gave it up after three failures. */
  ghost predicate OfJob(q: Q.State, k: Key) {
    exists j :: 0 <= j < |q.jobs| && (k in q.jobs[j].keys || k in q.jobs[j].abandoned)
  }

  ghost predicate OwnedBut(s: Store, rest: set<Key>) {
    forall k :: k in s.files ==> k in rest || OfRecord(s, k) || OfJob(s.queue, k)
  }

  ghost predicate AllOwned(s: Store) {
    OwnedBut(s, {})
  }

  // ----- queue steps -----

  /** Same records, no more files, and a file that is left is still some job's if it was before. */
  ghost predicate Hands(s: Store, t: Store) {
    && t.records == s.records && t.files <= s.files
    && forall k :: k in t.files && OfJob(s.queue, k) ==> OfJob(t.queue, k)
  }

  lemma HandsOwned(s: Store, t: Store, rest: set<Key>)
    requires Hands(s, t) && OwnedBut(s, rest)
    ensures OwnedBut(t, rest)
  {
    hide OfJob, FilesOf;
    forall k | k in t.files && OfRecord(s, k) ensures OfRecord(t, k) {
      var id :| id in s.records && k in FilesOf(s.records[id].storageKey);
    }
  }

  /** A key that a reply does not remove stays with the job, as work or as abandoned. */
  lemma SettleHolds(job: Q.Job, reply: Q.Reply, now: int, k: Key)
    requires k in job.abandoned || (k in job.keys && k !in Q.RemovedKeys(job, reply))
    ensures k in Q.Settle(job, reply, now).keys || k in Q.Settle(job, reply, now).abandoned
  {
  }

  lemma AnswerHands(s: Store, t: Store, id: nat, reply: Q.Reply, now: int)
    requires id < |s.queue.jobs| && t.queue.jobs == s.queue.jobs[id := Q.Settle(s.queue.jobs[id], reply, now)]
    requires t == s.(queue := t.queue, files := s.files - Q.RemovedKeys(s.queue.jobs[id], reply))
    ensures Hands(s, t)
  {
    hide Q.Settle, Q.RemovedKeys;
    forall k | k in t.files && OfJob(s.queue, k) ensures OfJob(t.queue, k) {
      var j :| 0 <= j < |s.queue.jobs| && (k in s.queue.jobs[j].keys || k in s.queue.jobs[j].abandoned);
      if j == id { SettleHolds(s.queue.jobs[id], reply, now, k); }
      assert k in t.queue.jobs[j].keys || k in t.queue.jobs[j].abandoned;
    }
  }

  lemma QueueStepHands(s: Store, step: Q.Step)
    ensures Hands(s, QueueStep(s, step))
  {
    hide Q.Apply, Q.Settle, Q.RemovedKeys;
    if !(step.Enqueue? || step.Destroy?) && Q.Enabled(s.queue, step) {
      StepJobs(s.queue, step);
      if step.Answer? {
        AnswerHands(s, QueueStep(s, step), s.queue.running[step.p].job, step.reply, step.now);
      }
    }
  }

  lemma {:induction false} QueueStepsOwned(s: Store, steps: seq<Q.Step>, rest: set<Key>)
    requires OwnedBut(s, rest)
    ensures OwnedBut(QueueSteps(s, steps), rest)
  {
    if steps != [] {
      hide OwnedBut, Hands, QueueStep;
      var m := QueueSteps(s, steps[..|steps| - 1]);
      QueueStepsOwned(s, steps[..|steps| - 1], rest);
      QueueStepHands(m, steps[|steps| - 1]);
      HandsOwned(m, QueueStep(m, steps[|steps| - 1]), rest);
    }
  }

  // ----- attempts -----

  lemma MoreJobs(s: Store, t: Store, k: Key)
    requires s.queue.jobs <= t.queue.jobs && OfJob(s.queue, k)
    ensures OfJob(t.queue, k)
  {
    var j :| 0 <= j < |s.queue.jobs| && (k in s.queue.jobs[j].keys || k in s.queue.jobs[j].abandoned);
    assert t.queue.jobs[j] == s.queue.jobs[j];
  }

  lemma EnqueueOwned(s: Store, kind: Q.Kind, keys: set<Key>, now: int)
    requires OwnedBut(s, keys)
    ensures AllOwned(Enqueue(s, kind, keys, now))
  {
    hide FilesOf;
    var t := Enqueue(s, kind, keys, now);
    EnqueueShape(s, kind, keys, now);
    hide Enqueue;
    forall k | k in t.files ensures OfRecord(t, k) || OfJob(t.queue, k) {
      if k in keys {
        assert k in t.queue.jobs[|s.queue.jobs|].keys;
      } else if OfRecord(s, k) {
        var id :| id in s.records && k in FilesOf(s.records[id].storageKey);
        assert id in t.records && k in FilesOf(t.records[id].storageKey);
      } else {
        MoreJobs(s, t, k);
      }
    }
  }

  lemma WrittenOwned(s: Store, req: Request, known: Option<Record>, t: Try)
    requires ValidRequest(req) && AllOwned(s)
    ensures OwnedBut(Written(s, req, known, t), Wrote(req.mediaType, PrefixOf(req, t), known.Some?, t.verdict))
  {
    var p, s1 := PrefixOf(req, t), QueueSteps(s, t.before);
    var keys := Wrote(req.mediaType, p, known.Some?, t.verdict);
    QueueStepsOwned(s, t.before, {});
    var s2 := if known.Some? then s1 else s1.(files := s1.files + keys, used := s1.used + {p});
    hide Wrote, PrefixOf, QueueSteps;
    FilesAdded(s1, s2, keys);
    QueueStepsOwned(s2, t.after, keys);
  }

  lemma FilesAdded(s: Store, t: Store, keys: set<Key>)
    requires AllOwned(s) && t.records == s.records && t.queue == s.queue && t.files <= s.files + keys
    ensures OwnedBut(t, keys)
  {
    hide FilesOf, OfJob;
    assert forall k :: OfRecord(s, k) ==> OfRecord(t, k);
  }

  /** The new record owns what was written; the files of a dead key are left to be handed over. */
  lemma ReplaceOwned(s: Store, r: Record, existing: Option<nat>, wrote: set<Key>)
    requires Agree(s) && Replace(s, r, existing).Some? && OwnedBut(s, wrote) && wrote <= FilesOf(r.storageKey)
    ensures var c := Replace(s, r, existing).value;
            OwnedBut(c.store, if c.dead.Some? then CleanupKeys(c.dead.value) else {})
  {
    hide FilesOf, CleanupKeys, ColumnOf, OfJob, Usable, Grounded;
    var c := Replace(s, r, existing).value;
    var t := c.store;
    var rest := if c.dead.Some? then CleanupKeys(c.dead.value) else {};
    forall k | k in t.files && k in wrote ensures OfRecord(t, k) {
      assert s.nextId in t.records && t.records[s.nextId] == r;
    }
    forall k | k in t.files && OfRecord(s, k) ensures k in rest || OfRecord(t, k) {
      var id :| id in s.records && k in FilesOf(s.records[id].storageKey);
      if existing == Some(id) {
        var key := s.records[id].storageKey;
        FilesWithinCleanup(key);
        if c.dead.None? {
          var other :| other in t.records && t.records[other].storageKey == key;
          assert k in FilesOf(t.records[other].storageKey);
        }
      } else {
        assert id in t.records && t.records[id] == s.records[id];
      }
    }
  }

  lemma RollBackOwned(s: Store, tracked: set<Key>, stuck: set<Key>, now: int, wrote: set<Key>)
    requires OwnedBut(s, wrote) && wrote <= tracked
    ensures AllOwned(RollBack(s, tracked, Retryable, stuck, now))
  {
    hide FilesOf;
    var t := RollBack(s, tracked, Retryable, stuck, now);
    RollBackShape(s, tracked, Retryable, stuck, now);
    hide RollBack;
    forall k | k in t.files ensures OfRecord(t, k) || OfJob(t.queue, k) {
      if k in wrote {
        assert k in tracked * stuck;
        assert k in t.queue.jobs[|s.queue.jobs|].keys;
      } else if OfRecord(s, k) {
        var id :| id in s.records && k in FilesOf(s.records[id].storageKey);
        assert id in t.records && k in FilesOf(t.records[id].storageKey);
      } else {
        MoreJobs(s, t, k);
      }
    }
  }

  lemma WroteIsTracked(m: MediaType, p: Key, known: bool, v: Verdict)
    ensures Wrote(m, p, known, v) <= Tracked(m, p, known, v)
    ensures v.Commits? && !EndsWith(p, ".pdf") ==> Wrote(m, p, known, v) <= FilesOf(StorageKeyOf(m, p))
  {
    UploadsInReach(m, p);
  }

  lemma AttemptOwned(s: Store, req: Request, known: Option<Record>, existing: Option<nat>, t: Try)
    requires Agree(s) && Ready(s, req, known, t) && AllOwned(s)
    ensures var a := Attempt(s, req, known, existing, t);
            if a.Success? then OwnedBut(a.store, if a.dead.Some? then CleanupKeys(a.dead.value) else {})
            else if a.fault.Retryable? then AllOwned(a.store)
            else OwnedBut(a.store, Wrote(req.mediaType, PrefixOf(req, t), known.Some?, t.verdict))
  {
    var w, p, m := Written(s, req, known, t), PrefixOf(req, t), req.mediaType;
    WrittenAgree(s, req, known, t);
    WrittenOwned(s, req, known, t);
    PrefixIsNoDocument(req.tenant, Folder(m), t.stamp, req.checksum);
    WroteIsTracked(m, p, known.Some?, t.verdict);
    var wrote, tracked := Wrote(m, p, known.Some?, t.verdict), Tracked(m, p, known.Some?, t.verdict);
    assert known.Some? ==> wrote == {};
    var r := NewRecord(req, known, t);
    assert known.None? ==> r.storageKey == StorageKeyOf(m, p);
    hide Agree, OwnedBut, Written, Wrote, Tracked, NewRecord, FilesOf, CleanupKeys, Replace, RollBack;
    var a := Attempt(s, req, known, existing, t);
    if a.Success? {
      ReplaceOwned(w, r, existing, wrote);
    } else if a.fault.Retryable? {
      RollBackOwned(w, tracked, t.stuck, t.now, wrote);
    } else {
      RollBackShape(w, tracked, a.fault, t.stuck, t.now);
    }
  }

  lemma {:induction false} UploadOwned(
    s: Store, req: Request, known: Option<Record>, existing: Option<nat>, tries: seq<Try>, n: nat)
    requires Begun(s, req, known, tries, n)
    requires AllOwned(s) && !FatalAfterWrite(s.columns, req, known.Some?, tries, n)
    ensures AllOwned(UploadFrom(s, req, known, existing, tries, n).0)
    decreases |tries| - n
  {
    hide Agree, Usable, OwnedBut, Attempt, Wrote, FaultOf, FatalAfterWrite, FreshPrefixes, CleanupKeys, Enqueue;
    var t := tries[n];
    FirstIsFresh(s, req, tries, n);
    AttemptOwned(s, req, known, existing, t);
    AttemptFault(s, req, known, existing, t);
    FatalStep(s.columns, req, known.Some?, tries, n);
    var a := Attempt(s, req, known, existing, t);
    if a.Success? {
      if a.dead.Some? { EnqueueOwned(a.store, Q.Replace, CleanupKeys(a.dead.value), t.now); }
    } else if a.fault.Retryable? && n + 1 < MAX_SERIALIZATION_RETRIES {
      AttemptCarries(s, req, known, existing, tries, n);
      UploadOwned(a.store, req, known, existing, tries, n + 1);
    }
  }

  // ----- removals -----

  lemma DropOwned(s: Store, t: Store, id: nat, keys: set<Key>)
    requires AllOwned(s) && id in s.records && t.records == s.records - {id}
    requires t.files == s.files && t.queue == s.queue
    requires FilesOf(s.records[id].storageKey) <= keys || InUse(t.records, s.records[id].storageKey)
    ensures OwnedBut(t, keys)
  {
    hide FilesOf, OfJob;
    forall k | k in t.files && OfRecord(s, k) ensures k in keys || OfRecord(t, k) {
      var i :| i in s.records && k in FilesOf(s.records[i].storageKey);
      if i != id {
        assert i in t.records;
      } else if InUse(t.records, s.records[id].storageKey) {
        var other :| other in t.records && t.records[other].storageKey == s.records[id].storageKey;
        assert k in FilesOf(t.records[other].storageKey);
      }
    }
  }

  lemma {:induction false} RemoveOwned(s: Store, id: nat, tries: seq<RemoveTry>, n: nat)
    requires AllOwned(s) && |tries| == MAX_SERIALIZATION_RETRIES && n < |tries| && id in s.records
    ensures AllOwned(RemoveFrom(s, id, tries, n).0)
    decreases |tries| - n
  {
    hide OwnedBut, FilesOf, CleanupKeys, Enqueue, ColumnOf;
    var s1 := QueueSteps(s, tries[n].before);
    QueueStepsOwned(s, tries[n].before, {});
    QueueStepsShrink(s, tries[n].before);
    hide QueueSteps;
    var r := s1.records[id];
    var c := ColumnOf(r);
    var fault := if tries[n].fault.None? && c.Some? && c.value !in s1.columns then Some(Fatal) else tries[n].fault;
    if fault.None? {
      var s2 := s1.(records := s1.records - {id},
                    columns := if c.Some? then s1.columns[c.value := None] else s1.columns);
      if InUse(s2.records, r.storageKey) {
        DropOwned(s1, s2, id, {});
      } else {
        FilesWithinCleanup(r.storageKey);
        DropOwned(s1, s2, id, CleanupKeys(r.storageKey));
        EnqueueOwned(s2, Q.Delete, CleanupKeys(r.storageKey), tries[n].now);
      }
    } else if fault.value.Retryable? && n + 1 < MAX_SERIALIZATION_RETRIES {
      RemoveOwned(s1, id, tries, n + 1);
    }
  }

  // ----- a lost file stays lost -----

  /** A file of an old prefix that no job was ever given and no record can lead to. */
  ghost predicate Orphan(s: Store, k: Key) {
    && k in s.files && k in ReachAll(s.used)
    && (forall j :: 0 <= j < |s.queue.jobs| ==> k !in s.queue.jobs[j].accepted)
    && (forall id :: id in s.records ==> k !in CleanupKeys(s.records[id].storageKey))
  }

  lemma OrphanIsLost(s: Store, k: Key)
    requires Agree(s) && QueueSound(s) && Orphan(s, k)
    ensures !AllOwned(s)
  {
    hide FilesOf, CleanupKeys, Reach, Usable;
    forall id | id in s.records ensures k !in FilesOf(s.records[id].storageKey) {
      FilesWithinCleanup(s.records[id].storageKey);
    }
    forall j | 0 <= j < |s.queue.jobs| ensures k !in s.queue.jobs[j].keys && k !in s.queue.jobs[j].abandoned {
      assert Q.Live(s.queue.jobs[j]) || Q.Done(s.queue.jobs[j]);
    }
  }

  lemma OrphanShrinks(s: Store, t: Store, k: Key)
    requires Shrinks(s, t) && Grounded(s) && Orphan(s, k)
    ensures Orphan(t, k)
  {
    hide CleanupKeys, Reach;
  }

  lemma OrphanEnqueued(s: Store, kind: Q.Kind, keys: set<Key>, now: int, k: Key)
    requires Orphan(s, k) && k !in keys
    ensures Orphan(Enqueue(s, kind, keys, now), k)
  {
    hide CleanupKeys, Reach;
    EnqueueShape(s, kind, keys, now);
  }

  lemma OrphanBeside(s: Store, keys: set<Key>, p: Key, k: Key)
    requires Orphan(s, k)
    ensures Orphan(s.(files := s.files + keys, used := s.used + {p}), k)
  {
    hide CleanupKeys, Reach;
    ReachGrows(s.used, p);
  }

  lemma OrphanQueued(s: Store, steps: seq<Q.Step>, k: Key)
    requires Grounded(s) && Orphan(s, k)
    ensures Orphan(QueueSteps(s, steps), k)
  {
    hide Grounded, Orphan, QueueSteps;
    QueueStepsShrink(s, steps);
    OrphanShrinks(s, QueueSteps(s, steps), k);
  }

  lemma OrphanWritten(s: Store, req: Request, known: Option<Record>, t: Try, k: Key)
    requires Agree(s) && Ready(s, req, known, t) && Orphan(s, k)
    ensures Orphan(Written(s, req, known, t), k)
  {
    hide QueueSteps, Wrote, CleanupKeys, Reach, FilesOf, Orphan, Usable, Uploads, Grounded, EndsWith, Prefix;
    var p, m := PrefixOf(req, t), req.mediaType;
    var s1 := QueueSteps(s, t.before);
    QueueStepsShrink(s, t.before);
    ShrunkAgree(s, s1);
    OrphanQueued(s, t.before, k);
    if known.Some? {
      OrphanQueued(s1, t.after, k);
    } else {
      var keys := Wrote(m, p, false, t.verdict);
      PrefixIsNoDocument(req.tenant, Folder(m), t.stamp, req.checksum);
      WroteWithin(m, p, t.verdict);
      WriteAgree(s1, m, p, keys);
      OrphanBeside(s1, keys, p, k);
      OrphanQueued(s1.(files := s1.files + keys, used := s1.used + {p}), t.after, k);
    }
  }

  lemma WroteWithin(m: MediaType, p: Key, v: Verdict)
    ensures Wrote(m, p, false, v) <= Uploads(m, p)
  {
  }

  lemma ReachGrows(used: set<Key>, p: Key)
    ensures ReachAll(used) <= ReachAll(used + {p})
  {
    hide Reach;
  }

  /** A fresh prefix leads nowhere near an old file. */
  lemma OutOfReach(s: Store, req: Request, t: Try, k: Key)
    requires Agree(s) && Ready(s, req, None, t) && k in ReachAll(s.used)
    ensures k !in Reach(PrefixOf(req, t))
    ensures k !in CleanupKeys(StorageKeyOf(req.mediaType, PrefixOf(req, t)))
  {
    var p := PrefixOf(req, t);
    PrefixIsNoDocument(req.tenant, Folder(req.mediaType), t.stamp, req.checksum);
    UploadsInReach(req.mediaType, p);
    FreshReach(p, s.used);
  }

  /** A record that cannot lead to the file takes the place of another. */
  lemma OrphanReplaced(s: Store, r: Record, existing: Option<nat>, k: Key)
    requires Orphan(s, k) && k !in CleanupKeys(r.storageKey) && Replace(s, r, existing).Some?
    ensures var c := Replace(s, r, existing).value;
            Orphan(c.store, k) && (c.dead.Some? ==> k !in CleanupKeys(c.dead.value))
  {
    hide CleanupKeys, Reach, ColumnOf;
  }

  lemma OrphanRolledBack(s: Store, tracked: set<Key>, fault: Fault, stuck: set<Key>, now: int, k: Key)
    requires Orphan(s, k) && k !in tracked
    ensures Orphan(RollBack(s, tracked, fault, stuck, now), k)
  {
    hide CleanupKeys, Reach;
    RollBackShape(s, tracked, fault, stuck, now);
    hide RollBack;
  }

  /** Nor does the attempt track the file, or create a record that leads to it. */
  lemma NotTracked(s: Store, req: Request, known: Option<Record>, t: Try, k: Key)
    requires Agree(s) && Ready(s, req, known, t) && k in ReachAll(s.used)
    requires known.Some? ==> k !in CleanupKeys(known.value.storageKey)
    ensures k !in Tracked(req.mediaType, PrefixOf(req, t), known.Some?, t.verdict)
    ensures k !in CleanupKeys(NewRecord(req, known, t).storageKey)
  {
    hide Agree, Usable, CleanupKeys, Reach, Uploads, PrefixOf;
    if known.None? {
      OutOfReach(s, req, t, k);
      UploadsInReach(req.mediaType, PrefixOf(req, t));
    }
  }

  lemma AttemptKeepsOrphan(s: Store, req: Request, known: Option<Record>, existing: Option<nat>, t: Try, k: Key)
    requires Agree(s) && Ready(s, req, known, t) && Orphan(s, k)
    requires known.Some? ==> k !in CleanupKeys(known.value.storageKey)
    ensures var a := Attempt(s, req, known, existing, t);
            Orphan(a.store, k) && (a.Success? && a.dead.Some? ==> k !in CleanupKeys(a.dead.value))
  {
    NotTracked(s, req, known, t, k);
    hide Written, NewRecord, Tracked, CleanupKeys, Replace, RollBack, Orphan, Agree, PrefixOf;
    var w, p, m := Written(s, req, known, t), PrefixOf(req, t), req.mediaType;
    OrphanWritten(s, req, known, t, k);
    var a := Attempt(s, req, known, existing, t);
    if a.Success? {
      OrphanReplaced(w, NewRecord(req, known, t), existing, k);
    } else {
      OrphanRolledBack(w, Tracked(m, p, known.Some?, t.verdict), a.fault, t.stuck, t.now, k);
    }
  }

  lemma {:induction false} UploadKeepsOrphan(
    s: Store, req: Request, known: Option<Record>, existing: Option<nat>, tries: seq<Try>, n: nat, k: Key)
    requires Begun(s, req, known, tries, n)
    requires Orphan(s, k) && (known.Some? ==> k !in CleanupKeys(known.value.storageKey))
    ensures Orphan(UploadFrom(s, req, known, existing, tries, n).0, k)
    decreases |tries| - n
  {
    hide Agree, Usable, Orphan, Attempt, FreshPrefixes, CleanupKeys, Enqueue;
    var t := tries[n];
    FirstIsFresh(s, req, tries, n);
    AttemptKeepsOrphan(s, req, known, existing, t, k);
    var a := Attempt(s, req, known, existing, t);
    if a.Success? {
      if a.dead.Some? { OrphanEnqueued(a.store, Q.Replace, CleanupKeys(a.dead.value), t.now, k); }
    } else if a.fault.Retryable? && n + 1 < MAX_SERIALIZATION_RETRIES {
      AttemptCarries(s, req, known, existing, tries, n);
      UploadKeepsOrphan(a.store, req, known, existing, tries, n + 1, k);
    }
  }

  lemma {:induction false} RemoveKeepsOrphan(s: Store, id: nat, tries: seq<RemoveTry>, n: nat, k: Key)
    requires Agree(s) && Orphan(s, k) && |tries| == MAX_SERIALIZATION_RETRIES && n < |tries| && id in s.records
    ensures Orphan(RemoveFrom(s, id, tries, n).0, k)
    decreases |tries| - n
  {
    hide FilesOf, CleanupKeys, Reach, Enqueue, ColumnOf, Usable;
    var s1 := QueueSteps(s, tries[n].before);
    QueueStepsShrink(s, tries[n].before);
    ShrunkAgree(s, s1);
    OrphanShrinks(s, s1, k);
    hide QueueSteps;
    var r := s1.records[id];
    var c := ColumnOf(r);
    var s2 := s1.(records := s1.records - {id},
                  columns := if c.Some? then s1.columns[c.value := None] else s1.columns);
    assert Orphan(s2, k);
    OrphanEnqueued(s2, Q.Delete, CleanupKeys(r.storageKey), tries[n].now, k);
    if n + 1 < MAX_SERIALIZATION_RETRIES {
      RemoveKeepsOrphan(s1, id, tries, n + 1, k);
    }
  }

  // ----- where files are lost -----

  /** Nothing leads to what was just written under a fresh prefix. */
  lemma WrittenIsOrphan(s: Store, req: Request, t: Try, k: Key)
    requires Agree(s) && Ready(s, req, None, t)
    requires k in Wrote(req.mediaType, PrefixOf(req, t), false, t.verdict)
    ensures Orphan(Written(s, req, None, t), k)
  {
    hide Written, FilesOf, CleanupKeys, Reach, Wrote, Grounded, Prefix, Uploads, EndsWith;
    var w, p, m := Written(s, req, None, t), PrefixOf(req, t), req.mediaType;
    PrefixIsNoDocument(req.tenant, Folder(m), t.stamp, req.checksum);
    WrittenAgree(s, req, None, t);
    WroteWithin(m, p, t.verdict);
    UploadsInReach(m, p);
    PrefixIsFresh(s, p);
    assert k in Reach(p);
    forall id | id in w.records ensures k !in CleanupKeys(w.records[id].storageKey) {
      assert Usable(s, s.records[id].storageKey);
    }
  }

  lemma PrefixIsFresh(s: Store, p: Key)
    requires Grounded(s) && p !in s.used && !EndsWith(p, ".pdf")
    ensures Reach(p) !! ReachAll(s.used)
  {
    hide Reach, EndsWith;
    FreshReach(p, s.used);
  }

  lemma FatalAttemptLeaks(s: Store, req: Request, known: Option<Record>, existing: Option<nat>, t: Try) returns (k: Key)
    requires Agree(s) && Ready(s, req, known, t) && FaultOf(s.columns, req, t) == Some(Fatal)
    requires Wrote(req.mediaType, PrefixOf(req, t), known.Some?, t.verdict) != {}
    ensures Orphan(Attempt(s, req, known, existing, t).store, k)
  {
    var p, m := PrefixOf(req, t), req.mediaType;
    assert known.None?;
    k :| k in Wrote(m, p, known.Some?, t.verdict);
    hide Agree, Written, Wrote, Tracked, RollBack, Replace, Orphan, PrefixOf, FaultOf;
    AttemptFault(s, req, known, existing, t);
    WrittenIsOrphan(s, req, t, k);
    RollBackShape(Written(s, req, None, t), Tracked(m, p, false, t.verdict), Fatal, t.stuck, t.now);
  }

  lemma {:induction false} UploadLeaks(
    s: Store, req: Request, known: Option<Record>, existing: Option<nat>, tries: seq<Try>, n: nat) returns (k: Key)
    requires Begun(s, req, known, tries, n)
    requires FatalAfterWrite(s.columns, req, known.Some?, tries, n)
    ensures Orphan(UploadFrom(s, req, known, existing, tries, n).0, k)
    decreases |tries| - n
  {
    hide Agree, Usable, Orphan, Attempt, Wrote, FaultOf, FatalAfterWrite, FreshPrefixes, CleanupKeys, Enqueue;
    var t := tries[n];
    FirstIsFresh(s, req, tries, n);
    AttemptFault(s, req, known, existing, t);
    FatalStep(s.columns, req, known.Some?, tries, n);
    var a := Attempt(s, req, known, existing, t);
    if a.fault.Fatal? {
      k := FatalAttemptLeaks(s, req, known, existing, t);
    } else {
      NoneAfterLast(s.columns, req, known.Some?, tries);
      AttemptCarries(s, req, known, existing, tries, n);
      k := UploadLeaks(a.store, req, known, existing, tries, n + 1);
    }
  }

  // ----- runs -----

  /** An upload that fails for good after it wrote files. */
  ghost predicate Leaks(s: Store, op: Op) {
    && op.DoUpload? && ValidUpload(s, op.req, op.byContent, op.existing, op.tries) && Acceptable(op.req)
    && FatalAfterWrite(s.columns, op.req, Known(s, op.byContent).Some?, op.tries, 0)
  }

  ghost predicate HasOrphan(s: Store) {
    exists k :: Orphan(s, k)
  }

  lemma KnownUsable(s: Store, req: Request, byContent: Option<nat>)
    requires Agree(s) && FindsContent(s, req, byContent)
    ensures var known := Known(s, byContent);
            known.Some? ==> && Usable(s, known.value.storageKey)
                            && forall k :: Orphan(s, k) ==> k !in CleanupKeys(known.value.storageKey)
  {
    hide Usable, CleanupKeys, Reach;
  }

  lemma StepOwned(s: Store, op: Op)
    requires Agree(s) && AllOwned(s)
    ensures if Leaks(s, op) then HasOrphan(Apply(s, op)) else AllOwned(Apply(s, op))
  {
    hide Agree, OwnedBut, Orphan, UploadFrom, RemoveFrom, QueueStep;
    hide FatalAfterWrite, FreshPrefixes, FindsExisting, Acceptable;
    match op
    case DoQueue(step) =>
      QueueStepHands(s, step);
      hide Hands;
      HandsOwned(s, QueueStep(s, step), {});
    case DoRemove(id, tenant, removals) =>
      if |removals| == MAX_SERIALIZATION_RETRIES && id in s.records {
        RemoveOwned(s, id, removals, 0);
      }
    case DoUpload(req, byContent, existing, tries) =>
      if ValidUpload(s, req, byContent, existing, tries) && Acceptable(req) {
        assert tries[0..] == tries;
        KnownUsable(s, req, byContent);
        if Leaks(s, op) {
          var k := UploadLeaks(s, req, Known(s, byContent), existing, tries, 0);
        } else {
          UploadOwned(s, req, Known(s, byContent), existing, tries, 0);
        }
      }
    case DoSetImage(product, url) => FilesAdded(s, Apply(s, op), {});
  }

  lemma StepKeepsOrphan(s: Store, op: Op, k: Key)
    requires Agree(s) && Orphan(s, k)
    ensures Orphan(Apply(s, op), k)
  {
    hide Orphan, Usable, Grounded, UploadFrom, RemoveFrom, QueueStep;
    hide CleanupKeys, FreshPrefixes, FindsExisting, Acceptable;
    match op
    case DoQueue(step) =>
      QueueStepShrinks(s, step);
      OrphanShrinks(s, QueueStep(s, step), k);
    case DoRemove(id, tenant, removals) =>
      if |removals| == MAX_SERIALIZATION_RETRIES && id in s.records {
        RemoveKeepsOrphan(s, id, removals, 0, k);
      }
    case DoUpload(req, byContent, existing, tries) =>
      if ValidUpload(s, req, byContent, existing, tries) {
        assert tries[0..] == tries;
        KnownUsable(s, req, byContent);
        UploadKeepsOrphan(s, req, Known(s, byContent), existing, tries, 0, k);
      }
    case DoSetImage(product, url) => OrphanAnyColumns(s, s.columns[ProductImage(product) := url], k);
  }

  lemma OrphanAnyColumns(s: Store, columns: map<Column, Option<string>>, k: Key)
    requires Orphan(s, k)
    ensures Orphan(s.(columns := columns), k)
  {
    hide CleanupKeys, Reach;
  }

  ghost predicate NeverLeaks(s: Store, ops: seq<Op>) {
    forall i :: 0 <= i < |ops| ==> !Leaks(Run(s, ops[..i]), ops[i])
  }

  lemma NeverLeaksSnoc(s: Store, ops: seq<Op>)
    requires ops != []
    ensures var init, op := ops[..|ops| - 1], ops[|ops| - 1];
            NeverLeaks(s, ops) <==> NeverLeaks(s, init) && !Leaks(Run(s, init), op)
  {
    hide Run, Leaks;
    var init := ops[..|ops| - 1];
    assert forall i :: 0 <= i < |init| ==> init[..i] == ops[..i] && init[i] == ops[i];
  }

  lemma {:induction false} RunOwned(s: Store, ops: seq<Op>)
    requires Agree(s) && AllOwned(s)
    ensures if NeverLeaks(s, ops) then AllOwned(Run(s, ops)) else HasOrphan(Run(s, ops))
  {
    if ops != [] {
      hide Agree, AllOwned, Orphan, Leaks, NeverLeaks, Apply;
      var m, op := Run(s, ops[..|ops| - 1]), ops[|ops| - 1];
      RunOwned(s, ops[..|ops| - 1]);
      RunAgree(s, ops[..|ops| - 1]);
      NeverLeaksSnoc(s, ops);
      if NeverLeaks(s, ops[..|ops| - 1]) {
        StepOwned(m, op);
      } else {
        var k :| Orphan(m, k);
        StepKeepsOrphan(m, op, k);
      }
    }
  }

  /**
   The other half of the agreement: after any run every file in storage is a record's, or still a job's to
   delete, or was abandoned by one, if and only if no upload of the run failed for good after writing files.
   */
  lemma RunOwnedExactly(s: Store, ops: seq<Op>)
    requires Agree(s) && QueueSound(s) && AllOwned(s)
    ensures AllOwned(Run(s, ops)) <==> NeverLeaks(s, ops)
  {
    hide Agree, AllOwned, QueueSound, Orphan, NeverLeaks, Run;
    RunOwned(s, ops);
    if !NeverLeaks(s, ops) {
      RunAgree(s, ops);
      RunSound(s, ops);
      var k :| Orphan(Run(s, ops), k);
      OrphanIsLost(Run(s, ops), k);
    }
  }
}
