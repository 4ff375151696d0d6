/**
 The in-memory retry queue for storage keys whose database record is gone
 (apps/api/src/media/media-cleanup-queue.service.ts).

 JavaScript runs a callback until its next `await`, so one step of this machine is one such stretch:
 an `enqueue` call, the timer callback, or the continuation of `processQueue` after an await. Every
 interleaving of these is a run. A step that is not enabled in a state leaves the state alone.
 */
module CleanupQueue {

  type Key = string

  datatype Kind = Replace | Delete | Rollback

  /**
   A job object. The first four fields are the program's; the rest is history that no step reads:
   the keys it was enqueued with, what became of them, and how often each one failed.
   */
  datatype Job = Job(
    kind: Kind, keys: set<Key>, attempts: nat, nextRetryAt: int,
    accepted: set<Key>, deleted: set<Key>, abandoned: set<Key>, failures: map<Key, nat>)

  /** An activation of `processQueue` is suspended at one of its two awaits. */
  datatype Phase = Sleeping | Deleting(job: nat)

  /** What `deleteBatch` does: it reports the keys it could not delete, or it throws. */
  datatype Reply =
    | Settled(failed: set<Key>)
    | Threw(gone: set<Key>)  // the keys deleted before it threw, which the queue does not learn

  const MAX_RETRIES: nat := 3

  /**
   `jobs` are the job objects in the order of their acceptance, and `queue` refers to them. `timer` says
   that the field is not null; `armed` counts the callbacks that the event loop will still deliver.
   */
  datatype State = State(
    jobs: seq<Job>, queue: seq<nat>, processing: bool, timer: bool, armed: nat, running: seq<Phase>)

  const EMPTY := State([], [], false, false, 0, [])

  datatype Step =
    | Enqueue(kind: Kind, keys: set<Key>, now: int)
    | Fire(now: int)
    | Wake(p: nat, now: int)
    | Answer(p: nat, reply: Reply, now: int)
    | Destroy

  // ----- the service's own code, one function per stretch -----

  function ScheduleProcessing(s: State): State {
    if s.processing || s.timer then s else s.(timer := true, armed := s.armed + 1)
  }

  function NewJob(kind: Kind, keys: set<Key>, now: int): Job {
    Job(kind, keys, 0, now, keys, {}, {}, map k | k in keys :: 0)
  }

  function Push(s: State, kind: Kind, keys: set<Key>, now: int): State {
    ScheduleProcessing(s.(jobs := s.jobs + [NewJob(kind, keys, now)], queue := s.queue + [|s.jobs|]))
  }

  /** From the loop head to the next await, or to the end of the function. */
  function LoopHead(s: State, now: int): State {
    if s.queue == [] then s.(processing := false)
    else
      var id, rest := s.queue[0], s.queue[1..];
      if id < |s.jobs| && s.jobs[id].nextRetryAt > now then s.(queue := rest + [id], running := s.running + [Sleeping])
      else s.(queue := rest, running := s.running + [Deleting(id)])
  }

  /** The keys that a reply makes the queue count as failed. */
  function FailedKeys(job: Job, reply: Reply): set<Key> {
    match reply
    case Settled(failed) => failed * job.keys
    case Threw(_) => job.keys
  }

  /** The files that a reply removed from storage. */
  function RemovedKeys(job: Job, reply: Reply): set<Key> {
    match reply
    case Settled(failed) => job.keys - failed
    case Threw(gone) => gone * job.keys
  }

  function Backoff(attempts: nat): int {
    if attempts == 0 then 1000 else 2 * Backoff(attempts - 1)
  }

  /** Whether the job goes back to the queue. A reply that throws retries even a job without keys. */
  predicate Retried(job: Job, reply: Reply) {
    (reply.Threw? || FailedKeys(job, reply) != {}) && job.attempts + 1 < MAX_RETRIES
  }

  /** The job object after `deleteBatch` answered. */
  function Settle(job: Job, reply: Reply, now: int): Job {
    var failed := FailedKeys(job, reply);
    var job1 := job.(deleted := job.deleted + (job.keys - failed),
                     failures := job.failures + map k | k in failed && k in job.failures :: job.failures[k] + 1);
    if reply.Settled? && failed == {} then job1.(keys := {})
    else if Retried(job, reply) then
      job1.(keys := failed, attempts := job.attempts + 1, nextRetryAt := now + Backoff(job.attempts + 1))
    else job1.(keys := {}, attempts := job.attempts + 1, abandoned := job.abandoned + failed)
  }

  // ----- steps and runs -----

  predicate Enabled(s: State, step: Step) {
    match step
    case Enqueue(_, _, _) => true
    case Fire(_) => s.armed > 0
    case Wake(p, _) => p < |s.running| && s.running[p].Sleeping?
    case Answer(p, _, _) => p < |s.running| && s.running[p].Deleting? && s.running[p].job < |s.jobs|
    case Destroy => true
  }

  function Drop<T>(xs: seq<T>, p: nat): seq<T>
    requires p < |xs|
  {
    xs[..p] + xs[p + 1..]
  }

  function Finish(s: State, id: nat, reply: Reply, now: int): State
    requires id < |s.jobs|
  {
    s.(jobs := s.jobs[id := Settle(s.jobs[id], reply, now)],
       queue := if Retried(s.jobs[id], reply) then s.queue + [id] else s.queue)
  }

  /** What a continuation does before it is back at the loop head. */
  function Resume(s: State, step: Step): State
    requires Enabled(s, step) && (step.Fire? || step.Wake? || step.Answer?)
  {
    match step
    case Fire(_) => s.(armed := s.armed - 1, processing := true, timer := false)
    case Wake(p, _) => s.(running := Drop(s.running, p))
    case Answer(p, reply, now) => Finish(s.(running := Drop(s.running, p)), s.running[p].job, reply, now)
  }

  function Apply(s: State, step: Step): State {
    if !Enabled(s, step) then s
    else match step
      case Enqueue(kind, keys, now) => Push(s, kind, keys, now)
      case Destroy => if s.timer && s.armed > 0 then s.(armed := s.armed - 1) else s
      case _ => LoopHead(Resume(s, step), step.now)
  }

  function Run(s: State, steps: seq<Step>): State {
    if steps == [] then s else Apply(Run(s, steps[..|steps| - 1]), steps[|steps| - 1])
  }

  // ----- every waiting job has somebody who will process it -----

  /** At most one timer or processor, never both, and one of them whenever a job waits. */
  ghost predicate Scheduled(s: State) {
    && s.armed == (if s.timer then 1 else 0)
    && |s.running| == (if s.processing then 1 else 0)
    && !(s.timer && s.processing)
    && (s.queue != [] ==> s.timer || s.processing)
  }

  lemma StepScheduled(s: State, step: Step)
    requires Scheduled(s) && !step.Destroy?
    ensures Scheduled(Apply(s, step))
  {
    if Enabled(s, step) && !step.Enqueue? {
      var t := Resume(s, step);
      assert t.armed == 0 && !t.timer && t.processing && t.running == [];
    }
  }

  /** The timer field holds a handle that was cleared, so nothing will ever be scheduled again. */
  ghost predicate Stalled(s: State) {
    s.timer && s.armed == 0 && s.running == [] && !s.processing
  }

  lemma StepStalled(s: State, step: Step)
    requires Stalled(s)
    ensures Stalled(Apply(s, step)) && s.queue <= Apply(s, step).queue
  {
  }

  /** The module is never destroyed while a timer is set. */
  ghost predicate Undisturbed(s: State, steps: seq<Step>) {
    forall i :: 0 <= i < |steps| && steps[i].Destroy? ==> !Run(s, steps[..i]).timer
  }

  lemma UndisturbedSnoc(s: State, steps: seq<Step>)
    requires steps != []
    ensures var init, step := steps[..|steps| - 1], steps[|steps| - 1];
            Undisturbed(s, steps) <==> Undisturbed(s, init) && (step.Destroy? ==> !Run(s, init).timer)
  {
    hide Run;
    var init := steps[..|steps| - 1];
    assert forall i :: 0 <= i < |init| ==> init[..i] == steps[..i] && init[i] == steps[i];
  }

  /** Exactly when waiting jobs have somebody to process them; otherwise nobody ever will. */
  lemma {:induction false} RunScheduled(s: State, steps: seq<Step>)
    requires Scheduled(s)
    ensures Scheduled(Run(s, steps)) <==> Undisturbed(s, steps)
    ensures Stalled(Run(s, steps)) <==> !Undisturbed(s, steps)
  {
    if steps != [] {
      var init, step := steps[..|steps| - 1], steps[|steps| - 1];
      var t := Run(s, init);
      RunScheduled(s, init);
      UndisturbedSnoc(s, steps);
      assert Run(s, steps) == Apply(t, step);
      hide Undisturbed, Run, Enabled;
      if Stalled(t) {
        StepStalled(t, step);
      } else if !step.Destroy? {
        StepScheduled(t, step);
      }
    }
  }

  /** The jobs that wait when the timer is cleared wait for ever. */
  lemma {:induction false} DestroyedTimerStalls(s: State, steps: seq<Step>)
    requires Scheduled(s) && s.timer
    ensures var t := Run(Apply(s, Destroy), steps); Stalled(t) && s.queue <= t.queue
  {
    if steps != [] {
      DestroyedTimerStalls(s, steps[..|steps| - 1]);
      StepStalled(Run(Apply(s, Destroy), steps[..|steps| - 1]), steps[|steps| - 1]);
    }
  }

  // ----- no job is lost or duplicated, and every key has exactly one fate -----

  function Held(running: seq<Phase>): multiset<nat> {
    if running == [] then multiset{}
    else
      var last := running[|running| - 1];
      Held(running[..|running| - 1]) + (if last.Deleting? then multiset{last.job} else multiset{})
  }

  /** The jobs in the queue and in the hands of processors, with their number of occurrences. */
  function Pending(s: State): multiset<nat> {
    multiset(s.queue) + Held(s.running)
  }

  /** All keys of a pending job are deleted or still to do, and the latter failed `attempts` times. */
  ghost predicate Live(job: Job) {
    && job.attempts < MAX_RETRIES && job.abandoned == {}
    && job.accepted == job.keys + job.deleted && job.keys !! job.deleted
    && job.failures.Keys == job.accepted
    && (forall k :: k in job.keys ==> job.failures[k] == job.attempts)
    && (forall k :: k in job.deleted ==> job.failures[k] < MAX_RETRIES)
  }

  /** All keys of a finished job are deleted, or abandoned after exactly three failures. */
  ghost predicate Done(job: Job) {
    && job.accepted == job.deleted + job.abandoned && job.deleted !! job.abandoned
    && job.failures.Keys == job.accepted
    && (forall k :: k in job.abandoned ==> job.failures[k] == MAX_RETRIES)
    && (forall k :: k in job.deleted ==> job.failures[k] < MAX_RETRIES)
  }

  /** Every accepted job is in exactly one place, or it is finished. */
  ghost predicate Conserved(s: State) {
    && (forall id :: id in Pending(s) ==> id < |s.jobs|)
    && (forall id :: 0 <= id < |s.jobs| ==>
          (Pending(s)[id] == 1 && Live(s.jobs[id])) || (Pending(s)[id] == 0 && Done(s.jobs[id])))
  }

  lemma HeldSnoc(running: seq<Phase>, p: Phase)
    ensures Held(running + [p]) == Held(running) + (if p.Deleting? then multiset{p.job} else multiset{})
  {
    assert (running + [p])[..|running|] == running;
  }

  lemma {:induction false} HeldDrop(running: seq<Phase>, p: nat)
    requires p < |running|
    ensures Held(running) == Held(Drop(running, p))
            + (if running[p].Deleting? then multiset{running[p].job} else multiset{})
  {
    hide Held;
    var init, last := running[..|running| - 1], running[|running| - 1];
    assert running == init + [last];
    HeldSnoc(init, last);
    if p == |init| {
      assert Drop(running, p) == init;
    } else {
      HeldDrop(init, p);
      HeldSnoc(Drop(init, p), last);
      assert Drop(running, p) == Drop(init, p) + [last];
    }
  }

  /** Rotating a job that is not due, or handing it to an await, keeps every job. */
  lemma LoopHeadKeepsJobs(s: State, now: int)
    ensures LoopHead(s, now).jobs == s.jobs && Pending(LoopHead(s, now)) == Pending(s)
  {
    hide Held;
    if s.queue != [] {
      var id: nat, rest := s.queue[0], s.queue[1..];
      assert s.queue == [id] + rest;
      assert multiset(rest + [id]) == multiset(s.queue) && multiset(s.queue) == multiset(rest) + multiset{id};
      if id < |s.jobs| && s.jobs[id].nextRetryAt > now {
        HeldSnoc(s.running, Sleeping);
      } else {
        HeldSnoc(s.running, Deleting(id));
      }
    }
  }

  lemma SettleJob(job: Job, reply: Reply, now: int)
    requires Live(job)
    ensures var job' := Settle(job, reply, now);
            job'.accepted == job.accepted && job'.kind == job.kind && job'.keys <= job.keys
            && if Retried(job, reply) then Live(job') else Done(job')
  {
  }

  /** Only the job `id` has changed or is new, and its account is right. */
  lemma OneJobChanged(s: State, t: State, id: nat)
    requires Conserved(s) && |s.jobs| <= |t.jobs| && id < |t.jobs|
    requires forall i :: 0 <= i < |t.jobs| && i != id ==> i < |s.jobs| && t.jobs[i] == s.jobs[i]
    requires forall i :: i != id ==> Pending(t)[i] == Pending(s)[i]
    requires (Pending(t)[id] == 1 && Live(t.jobs[id])) || (Pending(t)[id] == 0 && Done(t.jobs[id]))
    ensures Conserved(t)
  {
    hide Pending, Live, Done;
    forall i | i in Pending(t) ensures i < |t.jobs| {
      if i != id { assert i in Pending(s); }
    }
  }

  lemma FinishPending(s: State, id: nat, reply: Reply, now: int)
    requires id < |s.jobs|
    ensures Pending(Finish(s, id, reply, now))
            == Pending(s) + (if Retried(s.jobs[id], reply) then multiset{id} else multiset{})
  {
    hide Held, Settle, Retried;
    assert multiset(s.queue + [id]) == multiset(s.queue) + multiset{id};
  }

  lemma FinishConserves(s: State, s0: State, id: nat, reply: Reply, now: int)
    requires Conserved(s0) && s.jobs == s0.jobs && id < |s.jobs|
    requires Pending(s0) == Pending(s) + multiset{id}
    ensures Conserved(Finish(s, id, reply, now))
  {
    hide Pending, Live, Done, Settle, Retried;
    assert Pending(s0)[id] == 1;
    SettleJob(s.jobs[id], reply, now);
    FinishPending(s, id, reply, now);
    OneJobChanged(s0, Finish(s, id, reply, now), id);
  }

  lemma NewJobIsLive(kind: Kind, keys: set<Key>, now: int)
    ensures Live(NewJob(kind, keys, now))
  {
  }

  lemma PushPending(s: State, kind: Kind, keys: set<Key>, now: int)
    ensures Pending(Push(s, kind, keys, now)) == Pending(s) + multiset{|s.jobs|}
  {
    hide Held, NewJob;
    var id: nat := |s.jobs|;
    assert multiset(s.queue + [id]) == multiset(s.queue) + multiset{id};
  }

  lemma PushConserves(s: State, kind: Kind, keys: set<Key>, now: int)
    requires Conserved(s)
    ensures Conserved(Push(s, kind, keys, now))
  {
    hide Pending, Live, Done, NewJob;
    NewJobIsLive(kind, keys, now);
    PushPending(s, kind, keys, now);
    assert |s.jobs| !in Pending(s);
    OneJobChanged(s, Push(s, kind, keys, now), |s.jobs|);
  }

  lemma ResumeConserves(s: State, step: Step)
    requires Conserved(s) && Enabled(s, step) && (step.Fire? || step.Wake? || step.Answer?)
    ensures Conserved(Resume(s, step))
  {
    hide Conserved, Held, Drop, Finish;
    if step.Fire? {
      SameJobsConserve(s, Resume(s, step));
    } else {
      HeldDrop(s.running, step.p);
      var t := s.(running := Drop(s.running, step.p));
      if step.Answer? {
        FinishConserves(t, s, s.running[step.p].job, step.reply, step.now);
      } else {
        PendingConserves(s, t);
      }
    }
  }

  /** Timers and flags do not matter for the account. */
  lemma SameJobsConserve(s: State, t: State)
    requires Conserved(s) && t.jobs == s.jobs && t.queue == s.queue && t.running == s.running
    ensures Conserved(t)
  {
    hide Held, Live, Done;
    assert Pending(t) == Pending(s);
  }

  lemma PendingConserves(s: State, t: State)
    requires Conserved(s) && t.jobs == s.jobs && Pending(t) == Pending(s)
    ensures Conserved(t)
  {
    hide Pending, Live, Done;
  }

  lemma StepConserves(s: State, step: Step)
    requires Conserved(s)
    ensures Conserved(Apply(s, step))
  {
    hide Conserved, Pending, LoopHead, Resume, Push;
    if Enabled(s, step) {
      match step
      case Enqueue(kind, keys, now) => PushConserves(s, kind, keys, now);
      case Destroy => SameJobsConserve(s, Apply(s, step));
      case _ =>
        ResumeConserves(s, step);
        LoopHeadKeepsJobs(Resume(s, step), step.now);
        PendingConserves(Resume(s, step), Apply(s, step));
    }
  }

  // ----- what enqueueing, waiting and retrying mean -----

  /** The new job is the last one, has all the keys, is due at once, and waits at the end of the queue. */
  lemma EnqueueEffect(s: State, kind: Kind, keys: set<Key>, now: int)
    ensures var t := Apply(s, Enqueue(kind, keys, now));
            && |t.jobs| == |s.jobs| + 1 && t.jobs[..|s.jobs|] == s.jobs && t.queue == s.queue + [|s.jobs|]
            && var job := t.jobs[|s.jobs|];
               job.kind == kind && job.keys == keys == job.accepted && job.attempts == 0 && job.nextRetryAt == now
  {
  }

  /** After its first failure a job waits two seconds, after its second four; after its third it is given up. */
  lemma RetryEffect(job: Job, reply: Reply, now: int)
    requires Live(job)
    ensures var failed := match reply case Settled(f) => f * job.keys case Threw(_) => job.keys;
            var job' := Settle(job, reply, now);
            if reply.Settled? && failed == {} then !Retried(job, reply) && job'.deleted == job.deleted + job.keys
            else if job.attempts == 2 then !Retried(job, reply) && job'.abandoned == failed
            else
              && Retried(job, reply) && job'.keys == failed && job'.attempts == job.attempts + 1
              && job'.nextRetryAt == now + if job.attempts == 0 then 2000 else 4000
  {
    assert Backoff(1) == 2 * Backoff(0) && Backoff(2) == 2 * Backoff(1);
  }

  /** The job is in the hands of a processor. */
  ghost predicate InHand(s: State, id: nat) {
    exists p :: 0 <= p < |s.running| && s.running[p] == Deleting(id)
  }

  lemma HandOrder(s: State, step: Step, id: nat)
    requires Enabled(s, step) && (step.Fire? || step.Wake? || step.Answer?)
    ensures InHand(Resume(s, step), id) ==> InHand(s, id)
    ensures var t := LoopHead(Resume(s, step), step.now);
            InHand(t, id) && !InHand(Resume(s, step), id) ==> id < |t.jobs| ==> t.jobs[id].nextRetryAt <= step.now
  {
    hide Settle, Retried;
    var m := Resume(s, step);
    if InHand(m, id) {
      var p :| 0 <= p < |m.running| && m.running[p] == Deleting(id);
      if step.Fire? {
        assert s.running[p] == Deleting(id);
      } else {
        assert s.running[if p < step.p then p else p + 1] == Deleting(id);
      }
    }
  }

  /** No job is taken up before it is due, and only an answer changes when it is due. */
  lemma TakenUpWhenDue(s: State, step: Step, id: nat)
    requires id < |s.jobs|
    ensures var t := Apply(s, step);
            && id < |t.jobs|
            && (InHand(t, id) && !InHand(s, id) ==>
                !step.Enqueue? && !step.Destroy? && t.jobs[id].nextRetryAt <= step.now)
            && (t.jobs[id].nextRetryAt != s.jobs[id].nextRetryAt ==> step.Answer? && InHand(s, id))
  {
    hide Settle, Retried;
    if Enabled(s, step) && !step.Enqueue? && !step.Destroy? {
      HandOrder(s, step, id);
      LoopHeadKeepsJobs(Resume(s, step), step.now);
      if step.Answer? { assert s.running[step.p] == Deleting(s.running[step.p].job); }
    }
  }

  lemma {:induction false} RunConserves(s: State, steps: seq<Step>)
    requires Conserved(s)
    ensures Conserved(Run(s, steps))
  {
    if steps != [] {
      RunConserves(s, steps[..|steps| - 1]);
      StepConserves(Run(s, steps[..|steps| - 1]), steps[|steps| - 1]);
    }
  }
}
