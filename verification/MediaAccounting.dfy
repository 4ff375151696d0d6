/**
 What an upload leaves behind: every file it wrote belongs to the record it created, is deleted again, or
 was handed to the queue as a ROLLBACK job, unless an attempt that had written files failed with an error
 that is not retried. And what becomes of the keys that requests hand to the queue.
 */
module MediaAccounting {
  import opened Wrappers
  import opened StorageKeys
  import opened Media
  import opened MediaSafety
  import Q = CleanupQueue

  // ----- files -----

  /** All files that an upload writes, over all its attempts. */
  ghost function WroteFrom(
    s: Store, req: Request, known: Option<Record>, existing: Option<nat>, tries: seq<Try>, n: nat): set<Key>
    requires ValidRequest(req) && |tries| == MAX_SERIALIZATION_RETRIES && n < |tries|
    decreases |tries| - n
  {
    var a := Attempt(s, req, known, existing, tries[n]);
    Wrote(req.mediaType, PrefixOf(req, tries[n]), known.Some?, tries[n].verdict) +
    (if a.Threw? && a.fault.Retryable? && n + 1 < MAX_SERIALIZATION_RETRIES
     then WroteFrom(a.store, req, known, existing, tries, n + 1) else {})
  }

  /** What an attempt fails with, if it fails: an update of a missing row makes its commit fail for good. */
  function FaultOf(columns: map<Column, Option<string>>, req: Request, t: Try): Option<Fault> {
    var c := UrlColumn(req.tenant, req.entityType, req.entityId, req.mediaType);
    if !t.verdict.Commits? then Some(t.verdict.fault)
    else if c.Some? && c.value !in columns then Some(Fatal)
    else None
  }

  /** All attempts from `n` up to `i` fail with errors that are retried. */
  ghost predicate RetriedUpTo(columns: map<Column, Option<string>>, req: Request, tries: seq<Try>, n: nat, i: nat)
    requires i <= |tries|
  {
    forall j :: n <= j < i ==> FaultOf(columns, req, tries[j]) == Some(Retryable)
  }

  /** An attempt that wrote files fails with an error that is not retried. */
  ghost predicate FatalAfterWrite(
    columns: map<Column, Option<string>>, req: Request, known: bool, tries: seq<Try>, n: nat)
    requires ValidRequest(req)
  {
    exists i :: n <= i < |tries| && RetriedUpTo(columns, req, tries, n, i)
      && FaultOf(columns, req, tries[i]) == Some(Fatal)
      && Wrote(req.mediaType, PrefixOf(req, tries[i]), known, tries[i].verdict) != {}
  }

  /** An attempt commits. */
  ghost predicate Lands(columns: map<Column, Option<string>>, req: Request, tries: seq<Try>, n: nat) {
    exists i :: n <= i < |tries| && RetriedUpTo(columns, req, tries, n, i)
      && FaultOf(columns, req, tries[i]).None?
  }

  lemma RetriedFrom(columns: map<Column, Option<string>>, req: Request, tries: seq<Try>, n: nat, i: nat)
    requires n < i <= |tries|
    ensures RetriedUpTo(columns, req, tries, n, i) <==>
            FaultOf(columns, req, tries[n]) == Some(Retryable) && RetriedUpTo(columns, req, tries, n + 1, i)
  {
    hide FaultOf;
  }

  /** How the two conditions unfold along the attempts. */
  lemma FatalStep(columns: map<Column, Option<string>>, req: Request, known: bool, tries: seq<Try>, n: nat)
    requires ValidRequest(req) && n < |tries|
    ensures var fault := FaultOf(columns, req, tries[n]);
            FatalAfterWrite(columns, req, known, tries, n) <==>
            || (fault == Some(Fatal) && Wrote(req.mediaType, PrefixOf(req, tries[n]), known, tries[n].verdict) != {})
            || (fault == Some(Retryable) && FatalAfterWrite(columns, req, known, tries, n + 1))
  {
    hide FaultOf, Wrote, PrefixOf, RetriedUpTo;
    assert RetriedUpTo(columns, req, tries, n, n) by { RetriedNone(columns, req, tries, n); }
    forall i | n < i <= |tries|
      ensures RetriedUpTo(columns, req, tries, n, i) <==>
              FaultOf(columns, req, tries[n]) == Some(Retryable) && RetriedUpTo(columns, req, tries, n + 1, i)
    {
      RetriedFrom(columns, req, tries, n, i);
    }
  }

  lemma RetriedNone(columns: map<Column, Option<string>>, req: Request, tries: seq<Try>, n: nat)
    requires n <= |tries|
    ensures RetriedUpTo(columns, req, tries, n, n)
  {
  }

  lemma LandsStep(columns: map<Column, Option<string>>, req: Request, tries: seq<Try>, n: nat)
    requires n < |tries|
    ensures var fault := FaultOf(columns, req, tries[n]);
            Lands(columns, req, tries, n) <==>
            fault.None? || (fault == Some(Retryable) && Lands(columns, req, tries, n + 1))
  {
    hide FaultOf, RetriedUpTo;
    assert RetriedUpTo(columns, req, tries, n, n) by { RetriedNone(columns, req, tries, n); }
    forall i | n < i <= |tries|
      ensures RetriedUpTo(columns, req, tries, n, i) <==>
              FaultOf(columns, req, tries[n]) == Some(Retryable) && RetriedUpTo(columns, req, tries, n + 1, i)
    {
      RetriedFrom(columns, req, tries, n, i);
    }
  }

  /** Queue steps, roll-backs and jobs leave the database alone. */
  ghost predicate SameRows(s: Store, t: Store) {
    t.records == s.records && t.nextId == s.nextId && t.columns == s.columns
  }

  lemma WrittenRows(s: Store, req: Request, known: Option<Record>, t: Try)
    requires ValidRequest(req)
    ensures SameRows(s, Written(s, req, known, t))
  {
    var s1 := QueueSteps(s, t.before);
    QueueStepsShrink(s, t.before);
    var p := PrefixOf(req, t);
    QueueStepsShrink(if known.Some? then s1
                     else s1.(files := s1.files + Wrote(req.mediaType, p, false, t.verdict), used := s1.used + {p}),
                     t.after);
  }

  /** How an attempt ends can be told beforehand, and a failed one leaves the database alone. */
  lemma AttemptFault(s: Store, req: Request, known: Option<Record>, existing: Option<nat>, t: Try)
    requires ValidRequest(req)
    ensures var a, fault := Attempt(s, req, known, existing, t), FaultOf(s.columns, req, t);
            && (a.Success? <==> fault.None?)
            && (a.Threw? ==> Some(a.fault) == fault && SameRows(s, a.store))
  {
    WrittenRows(s, req, known, t);
    hide Written, Tracked, UrlColumn, PrefixOf;
    var a, w := Attempt(s, req, known, existing, t), Written(s, req, known, t);
    if a.Threw? {
      RollBackShape(w, Tracked(req.mediaType, PrefixOf(req, t), known.Some?, t.verdict), a.fault, t.stuck, t.now);
    }
  }

  ghost predicate HandedOver(q: Q.State, k: Key) {
    exists j :: 0 <= j < |q.jobs| && q.jobs[j].kind == Q.Rollback && k in q.jobs[j].accepted
  }

  ghost predicate TakenCareOf(s: Store, k: Key) {
    k !in s.files || HandedOver(s.queue, k)
  }

  ghost predicate Accounted(s: Store, out: Outcome, k: Key) {
    || TakenCareOf(s, k)
    || (out.Created? && out.id in s.records && k in FilesOf(s.records[out.id].storageKey))
  }

  ghost predicate AllAccounted(s: Store, out: Outcome, keys: set<Key>) {
    forall k :: k in keys ==> Accounted(s, out, k)
  }

  /** Job objects are only ever added, and they never forget what they were accepted for. */
  ghost predicate Grows(s: Store, t: Store) {
    && |s.queue.jobs| <= |t.queue.jobs|
    && (forall j :: 0 <= j < |s.queue.jobs| ==>
          t.queue.jobs[j].kind == s.queue.jobs[j].kind && t.queue.jobs[j].accepted == s.queue.jobs[j].accepted)
  }

  /** The files of an old prefix stay as they are unless they go away. */
  lemma StaysTakenCareOf(s: Store, t: Store, k: Key)
    requires Grows(s, t) && TakenCareOf(s, k) && (k in t.files ==> k in s.files)
    ensures TakenCareOf(t, k)
  {
    if HandedOver(s.queue, k) {
      var j :| 0 <= j < |s.queue.jobs| && s.queue.jobs[j].kind == Q.Rollback && k in s.queue.jobs[j].accepted;
      assert t.queue.jobs[j].kind == Q.Rollback && k in t.queue.jobs[j].accepted;
    }
  }

  lemma WrittenGrows(s: Store, req: Request, known: Option<Record>, t: Try)
    requires ValidRequest(req)
    ensures var w := Written(s, req, known, t);
            Grows(s, w) && w.files <= s.files + Wrote(req.mediaType, PrefixOf(req, t), known.Some?, t.verdict)
  {
    hide FilesOf, CleanupKeys, Reach, Wrote;
    var s1 := QueueSteps(s, t.before);
    QueueStepsShrink(s, t.before);
    var p := PrefixOf(req, t);
    var s2 := if known.Some? then s1
              else s1.(files := s1.files + Wrote(req.mediaType, p, false, t.verdict), used := s1.used + {p});
    QueueStepsShrink(s2, t.after);
  }

  lemma AttemptGrows(s: Store, req: Request, known: Option<Record>, existing: Option<nat>, t: Try)
    requires ValidRequest(req)
    ensures var a := Attempt(s, req, known, existing, t);
            && Grows(s, a.store)
            && a.store.files <= s.files + Wrote(req.mediaType, PrefixOf(req, t), known.Some?, t.verdict)
  {
    hide FilesOf, CleanupKeys, Reach, Wrote, Tracked;
    WrittenGrows(s, req, known, t);
    var a := Attempt(s, req, known, existing, t);
    if a.Threw? {
      RollBackShape(Written(s, req, known, t), Tracked(req.mediaType, PrefixOf(req, t), known.Some?, t.verdict),
                    a.fault, t.stuck, t.now);
    }
  }

  /** A file that was taken care of is not brought back by later attempts, which have other prefixes. */
  lemma {:induction false} UploadKeeps(
    s: Store, req: Request, known: Option<Record>, existing: Option<nat>, tries: seq<Try>, n: nat, k: Key)
    requires ValidRequest(req) && |tries| == MAX_SERIALIZATION_RETRIES && n < |tries| && TakenCareOf(s, k)
    requires forall i :: n <= i < |tries| ==> k !in Uploads(req.mediaType, PrefixOf(req, tries[i]))
    ensures TakenCareOf(UploadFrom(s, req, known, existing, tries, n).0, k)
    decreases |tries| - n
  {
    hide FilesOf, CleanupKeys, Reach, Uploads;
    var t := tries[n];
    var a := Attempt(s, req, known, existing, t);
    AttemptGrows(s, req, known, existing, t);
    StaysTakenCareOf(s, a.store, k);
    if a.Success? && a.dead.Some? {
      var s1 := Enqueue(a.store, Q.Replace, CleanupKeys(a.dead.value), t.now);
      EnqueueShape(a.store, Q.Replace, CleanupKeys(a.dead.value), t.now);
      StaysTakenCareOf(a.store, s1, k);
    } else if a.Threw? && a.fault.Retryable? && n + 1 < MAX_SERIALIZATION_RETRIES {
      UploadKeeps(a.store, req, known, existing, tries, n + 1, k);
    }
  }

  /** The catch block takes care of all files of a retryable attempt. */
  lemma RollBackTakesCare(w: Store, tracked: set<Key>, stuck: set<Key>, now: int, k: Key)
    requires k in tracked
    ensures TakenCareOf(RollBack(w, tracked, Retryable, stuck, now), k)
  {
    var t := RollBack(w, tracked, Retryable, stuck, now);
    RollBackShape(w, tracked, Retryable, stuck, now);
    if k in stuck {
      assert k in tracked * stuck;
      var j := |w.queue.jobs|;
      assert t.queue.jobs[j].kind == Q.Rollback && k in t.queue.jobs[j].accepted;
    }
  }

  /** How the files of the attempt itself fare. */
  lemma AttemptFiles(s: Store, req: Request, known: Option<Record>, existing: Option<nat>, t: Try, k: Key)
    requires Agree(s) && Ready(s, req, known, t)
    requires k in Wrote(req.mediaType, PrefixOf(req, t), known.Some?, t.verdict)
    ensures var a := Attempt(s, req, known, existing, t);
            if a.Success? then a.id in a.store.records && k in FilesOf(a.store.records[a.id].storageKey)
            else if a.fault.Retryable? then TakenCareOf(a.store, k)
            else !TakenCareOf(a.store, k)
  {
    hide FilesOf, CleanupKeys, Reach;
    var w, p := Written(s, req, known, t), PrefixOf(req, t);
    WrittenAgree(s, req, known, t);
    UploadsInReach(req.mediaType, p);
    PrefixIsNoDocument(req.tenant, Folder(req.mediaType), t.stamp, req.checksum);
    var a := Attempt(s, req, known, existing, t);
    var tracked := Tracked(req.mediaType, p, known.Some?, t.verdict);
    assert k in tracked && k in Reach(p);
    if a.Success? {
      ReplaceAgree(w, NewRecord(req, known, t), existing);
    } else if a.fault.Retryable? {
      RollBackTakesCare(w, tracked, t.stuck, t.now, k);
    } else {
      RollBackShape(w, tracked, a.fault, t.stuck, t.now);
    }
  }

  /** The prefixes of different attempts have no file in common. */
  lemma OtherAttempts(s: Store, req: Request, known: bool, tries: seq<Try>, n: nat, k: Key)
    requires ValidRequest(req) && IsHex(req.checksum) && n < |tries| && FreshPrefixes(s, req, tries[n..])
    requires k in Wrote(req.mediaType, PrefixOf(req, tries[n]), known, tries[n].verdict)
    ensures forall i :: n < i < |tries| ==> k !in Uploads(req.mediaType, PrefixOf(req, tries[i]))
  {
    var m, p := req.mediaType, PrefixOf(req, tries[n]);
    UploadsInReach(m, p);
    forall i | n < i < |tries| ensures k !in Uploads(m, PrefixOf(req, tries[i])) {
      hide FilesOf, CleanupKeys, Reach;
      var q := PrefixOf(req, tries[i]);
      assert tries[n..][0] == tries[n] && tries[n..][i - n] == tries[i];
      PrefixIsNoDocument(req.tenant, Folder(m), tries[n].stamp, req.checksum);
      PrefixIsNoDocument(req.tenant, Folder(m), tries[i].stamp, req.checksum);
      UploadsInReach(m, q);
      ReachDisjoint(p, q);
    }
  }

  /** A file of attempt `n` is accounted for in the end, unless that attempt fails without a roll-back. */
  lemma FileOfAttempt(
    s: Store, req: Request, known: Option<Record>, existing: Option<nat>, tries: seq<Try>, n: nat, k: Key)
    requires Agree(s) && ValidRequest(req) && |tries| == MAX_SERIALIZATION_RETRIES && n < |tries|
             && Ready(s, req, known, tries[n])
    requires FreshPrefixes(s, req, tries[n..])
    requires k in Wrote(req.mediaType, PrefixOf(req, tries[n]), known.Some?, tries[n].verdict)
    ensures var (t, out) := UploadFrom(s, req, known, existing, tries, n);
            var a := Attempt(s, req, known, existing, tries[n]);
            Accounted(t, out, k) <==> !(a.Threw? && a.fault.Fatal?)
  {
    hide FilesOf, CleanupKeys, Reach, Agree, Wrote, Attempt, TakenCareOf, FreshPrefixes;
    var a := Attempt(s, req, known, existing, tries[n]);
    AttemptFiles(s, req, known, existing, tries[n], k);
    if a.Threw? && a.fault.Retryable? && n + 1 < MAX_SERIALIZATION_RETRIES {
      OtherAttempts(s, req, known.Some?, tries, n, k);
      UploadKeeps(a.store, req, known, existing, tries, n + 1, k);
    }
  }

  lemma FilesOfAttempt(s: Store, req: Request, known: Option<Record>, existing: Option<nat>, tries: seq<Try>, n: nat)
    requires Begun(s, req, known, tries, n)
    ensures var u := UploadFrom(s, req, known, existing, tries, n);
            var a := Attempt(s, req, known, existing, tries[n]);
            var mine := Wrote(req.mediaType, PrefixOf(req, tries[n]), known.Some?, tries[n].verdict);
            AllAccounted(u.0, u.1, mine) <==> !(a.Threw? && a.fault.Fatal? && mine != {})
  {
    FirstIsFresh(s, req, tries, n);
    hide Agree, Wrote, Attempt, Accounted, UploadFrom, FreshPrefixes, Usable, PrefixOf;
    var u := UploadFrom(s, req, known, existing, tries, n);
    var a := Attempt(s, req, known, existing, tries[n]);
    var mine := Wrote(req.mediaType, PrefixOf(req, tries[n]), known.Some?, tries[n].verdict);
    forall k | k in mine ensures Accounted(u.0, u.1, k) <==> !(a.Threw? && a.fault.Fatal?) {
      FileOfAttempt(s, req, known, existing, tries, n, k);
    }
    if mine != {} {
      var k :| k in mine;
    }
  }

  lemma AccountedUnion(s: Store, out: Outcome, a: set<Key>, b: set<Key>)
    ensures AllAccounted(s, out, a + b) <==> AllAccounted(s, out, a) && AllAccounted(s, out, b)
  {
    hide Accounted;
  }

  /** Attempt `n` is about to start, with its prefix and those of the attempts after it still to be drawn. */
  ghost predicate Begun(s: Store, req: Request, known: Option<Record>, tries: seq<Try>, n: nat) {
    && Agree(s) && ValidRequest(req) && IsHex(req.checksum) && |tries| == MAX_SERIALIZATION_RETRIES && n < |tries|
    && FreshPrefixes(s, req, tries[n..]) && (known.Some? ==> Usable(s, known.value.storageKey))
  }

  /** Every file that the upload wrote is accounted for, if and only if it never fails for good after writing. */
  ghost predicate AccountedExactly(
    s: Store, req: Request, known: Option<Record>, existing: Option<nat>, tries: seq<Try>, n: nat)
    requires ValidRequest(req) && |tries| == MAX_SERIALIZATION_RETRIES && n < |tries|
  {
    var (t, out) := UploadFrom(s, req, known, existing, tries, n);
    AllAccounted(t, out, WroteFrom(s, req, known, existing, tries, n)) <==>
    !FatalAfterWrite(s.columns, req, known.Some?, tries, n)
  }

  /** Exactly when every file that an upload wrote is accounted for in the end. */
  lemma {:induction false} UploadAccounts(
    s: Store, req: Request, known: Option<Record>, existing: Option<nat>, tries: seq<Try>, n: nat)
    requires Begun(s, req, known, tries, n)
    ensures AccountedExactly(s, req, known, existing, tries, n)
    decreases |tries| - n
  {
    hide Agree, Usable, Wrote, Attempt, AllAccounted, FaultOf, FatalAfterWrite, FreshPrefixes, UploadFrom, WroteFrom;
    hide PrefixOf;
    var a := Attempt(s, req, known, existing, tries[n]);
    UploadUnfolds(s, req, known, existing, tries, n);
    FilesOfAttempt(s, req, known, existing, tries, n);
    AttemptFault(s, req, known, existing, tries[n]);
    FatalStep(s.columns, req, known.Some?, tries, n);
    if a.Threw? && a.fault.Retryable? && n + 1 < MAX_SERIALIZATION_RETRIES {
      AttemptCarries(s, req, known, existing, tries, n);
      UploadAccounts(a.store, req, known, existing, tries, n + 1);
      var (t, out) := UploadFrom(s, req, known, existing, tries, n);
      var mine := Wrote(req.mediaType, PrefixOf(req, tries[n]), known.Some?, tries[n].verdict);
      AccountedUnion(t, out, mine, WroteFrom(a.store, req, known, existing, tries, n + 1));
    } else {
      NoneAfterLast(s.columns, req, known.Some?, tries);
    }
  }

  /** An upload is its first attempt, and the rest if that is retried. */
  lemma UploadUnfolds(
    s: Store, req: Request, known: Option<Record>, existing: Option<nat>, tries: seq<Try>, n: nat)
    requires ValidRequest(req) && |tries| == MAX_SERIALIZATION_RETRIES && n < |tries|
    ensures var a := Attempt(s, req, known, existing, tries[n]);
            var mine := Wrote(req.mediaType, PrefixOf(req, tries[n]), known.Some?, tries[n].verdict);
            if a.Threw? && a.fault.Retryable? && n + 1 < MAX_SERIALIZATION_RETRIES then
              && UploadFrom(s, req, known, existing, tries, n)
                 == UploadFrom(a.store, req, known, existing, tries, n + 1)
              && WroteFrom(s, req, known, existing, tries, n)
                 == mine + WroteFrom(a.store, req, known, existing, tries, n + 1)
            else
              && WroteFrom(s, req, known, existing, tries, n) == mine
              && SameRows(a.store, UploadFrom(s, req, known, existing, tries, n).0)
  {
    hide Attempt, Wrote, PrefixOf, CleanupKeys;
  }

  /** A failed attempt leaves everything ready for the next one. */
  lemma AttemptCarries(
    s: Store, req: Request, known: Option<Record>, existing: Option<nat>, tries: seq<Try>, n: nat)
    requires Begun(s, req, known, tries, n) && n + 1 < |tries|
    ensures var a := Attempt(s, req, known, existing, tries[n]);
            a.Threw? ==> Begun(a.store, req, known, tries, n + 1)
  {
    FirstIsFresh(s, req, tries, n);
    hide Agree, Usable, Attempt, FreshPrefixes, PrefixOf, CleanupKeys, Reach;
    AttemptAgree(s, req, known, existing, tries[n]);
    FreshTail(s, Attempt(s, req, known, existing, tries[n]).store, req, tries, n);
  }

  lemma FirstIsFresh(s: Store, req: Request, tries: seq<Try>, n: nat)
    requires ValidRequest(req) && n < |tries|
    ensures FreshPrefixes(s, req, tries[n..]) ==> PrefixOf(req, tries[n]) !in s.used
  {
    hide PrefixOf;
    assert tries[n..][0] == tries[n];
  }

  lemma NoneAfterLast(columns: map<Column, Option<string>>, req: Request, known: bool, tries: seq<Try>)
    requires ValidRequest(req)
    ensures !FatalAfterWrite(columns, req, known, tries, |tries|) && !Lands(columns, req, tries, |tries|)
  {
  }

  // ----- the queue inside the service -----

  /** What module CleanupQueue proves of its runs holds of the queue inside every media run as well. */
  ghost predicate QueueSound(s: Store) {
    Q.Conserved(s.queue) && Q.Scheduled(s.queue)
  }

  lemma EnqueueSound(s: Store, kind: Q.Kind, keys: set<Key>, now: int)
    requires QueueSound(s)
    ensures QueueSound(Enqueue(s, kind, keys, now))
  {
    Q.StepConserves(s.queue, Q.Enqueue(kind, keys, now));
    Q.StepScheduled(s.queue, Q.Enqueue(kind, keys, now));
  }

  lemma QueueStepSound(s: Store, step: Q.Step)
    requires QueueSound(s)
    ensures QueueSound(QueueStep(s, step))
  {
    Q.StepConserves(s.queue, step);
    if !step.Destroy? { Q.StepScheduled(s.queue, step); }
  }

  lemma {:induction false} QueueStepsSound(s: Store, steps: seq<Q.Step>)
    requires QueueSound(s)
    ensures QueueSound(QueueSteps(s, steps))
  {
    if steps != [] {
      QueueStepsSound(s, steps[..|steps| - 1]);
      QueueStepSound(QueueSteps(s, steps[..|steps| - 1]), steps[|steps| - 1]);
    }
  }

  lemma AttemptSound(s: Store, req: Request, known: Option<Record>, existing: Option<nat>, t: Try)
    requires QueueSound(s) && ValidRequest(req)
    ensures QueueSound(Attempt(s, req, known, existing, t).store)
  {
    hide Q.Conserved, Q.Scheduled, Q.Apply;
    var s1 := QueueSteps(s, t.before);
    QueueStepsSound(s, t.before);
    var p := PrefixOf(req, t);
    QueueStepsSound(if known.Some? then s1
                    else s1.(files := s1.files + Wrote(req.mediaType, p, false, t.verdict), used := s1.used + {p}),
                    t.after);
    var w := Written(s, req, known, t);
    var a := Attempt(s, req, known, existing, t);
    var tracked := Tracked(req.mediaType, p, known.Some?, t.verdict);
    if a.Threw? && a.fault.Retryable? && tracked != {} && tracked * t.stuck != {} {
      EnqueueSound(w.(files := w.files - (tracked - t.stuck)), Q.Rollback, tracked * t.stuck, t.now);
    }
  }

  lemma {:induction false} UploadSound(
    s: Store, req: Request, known: Option<Record>, existing: Option<nat>, tries: seq<Try>, n: nat)
    requires QueueSound(s) && ValidRequest(req) && |tries| == MAX_SERIALIZATION_RETRIES && n < |tries|
    ensures QueueSound(UploadFrom(s, req, known, existing, tries, n).0)
    decreases |tries| - n
  {
    hide QueueSound, Attempt, Enqueue, CleanupKeys;
    AttemptSound(s, req, known, existing, tries[n]);
    var a := Attempt(s, req, known, existing, tries[n]);
    if a.Success? && a.dead.Some? {
      EnqueueSound(a.store, Q.Replace, CleanupKeys(a.dead.value), tries[n].now);
    } else if a.Threw? && a.fault.Retryable? && n + 1 < MAX_SERIALIZATION_RETRIES {
      UploadSound(a.store, req, known, existing, tries, n + 1);
    }
  }

  lemma {:induction false} RemoveSound(s: Store, id: nat, tries: seq<RemoveTry>, n: nat)
    requires QueueSound(s) && |tries| == MAX_SERIALIZATION_RETRIES && n < |tries| && id in s.records
    ensures QueueSound(RemoveFrom(s, id, tries, n).0)
    decreases |tries| - n
  {
    hide Q.Conserved, Q.Scheduled, Enqueue, CleanupKeys;
    var s1 := QueueSteps(s, tries[n].before);
    QueueStepsSound(s, tries[n].before);
    QueueStepsShrink(s, tries[n].before);
    var r := s1.records[id];
    var c := ColumnOf(r);
    EnqueueSound(s1.(records := s1.records - {id},
                     columns := if c.Some? then s1.columns[c.value := None] else s1.columns),
                 Q.Delete, CleanupKeys(r.storageKey), tries[n].now);
    if n + 1 < MAX_SERIALIZATION_RETRIES {
      RemoveSound(s1, id, tries, n + 1);
    }
  }

  /** In every run, each key ever handed to the queue is waiting, deleted, or abandoned after three failures. */
  lemma {:induction false} RunSound(s: Store, ops: seq<Op>)
    requires QueueSound(s)
    ensures QueueSound(Run(s, ops))
  {
    if ops != [] {
      hide QueueSound, Finds, FreshPrefixes;
      var m, op := Run(s, ops[..|ops| - 1]), ops[|ops| - 1];
      RunSound(s, ops[..|ops| - 1]);
      match op
      case DoQueue(step) => QueueStepSound(m, step);
      case DoSetImage(product, url) =>
      case DoRemove(id, tenant, removals) =>
        if |removals| == MAX_SERIALIZATION_RETRIES && id in m.records {
          RemoveSound(m, id, removals, 0);
        }
      case DoUpload(req, byContent, existing, tries) =>
        if ValidUpload(m, req, byContent, existing, tries) {
          UploadSound(m, req, Known(m, byContent), existing, tries, 0);
        }
    }
  }
}
