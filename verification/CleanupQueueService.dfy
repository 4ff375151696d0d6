/**
 The queue service as an object with mutable fields. Its methods are runs of the machine in module
 CleanupQueue, so everything proved there about runs holds of them.
 */
module CleanupQueueService {
  import opened CleanupQueue

  /** The attempts that the queued jobs have left. */
  function Budget(jobs: seq<Job>, queue: seq<nat>): nat {
    if queue == [] then 0
    else (if queue[0] < |jobs| && jobs[queue[0]].attempts < MAX_RETRIES
          then MAX_RETRIES - jobs[queue[0]].attempts else 0) + Budget(jobs, queue[1..])
  }

  /** The time that the queued jobs still have to wait, added up. */
  function Delay(jobs: seq<Job>, queue: seq<nat>, clock: int): nat {
    if queue == [] then 0
    else (if queue[0] < |jobs| && jobs[queue[0]].nextRetryAt > clock
          then jobs[queue[0]].nextRetryAt - clock else 0) + Delay(jobs, queue[1..], clock)
  }

  lemma {:induction false} BudgetConcat(jobs: seq<Job>, q: seq<nat>, r: seq<nat>)
    ensures Budget(jobs, q + r) == Budget(jobs, q) + Budget(jobs, r)
  {
    if q == [] {
      assert q + r == r;
    } else {
      assert (q + r)[1..] == q[1..] + r;
      BudgetConcat(jobs, q[1..], r);
    }
  }

  lemma {:induction false} DelayConcat(jobs: seq<Job>, q: seq<nat>, r: seq<nat>, clock: int)
    ensures Delay(jobs, q + r, clock) == Delay(jobs, q, clock) + Delay(jobs, r, clock)
  {
    if q == [] {
      assert q + r == r;
    } else {
      assert (q + r)[1..] == q[1..] + r;
      DelayConcat(jobs, q[1..], r, clock);
    }
  }

  lemma {:induction false} DelayShrinks(jobs: seq<Job>, q: seq<nat>, clock: int, later: int)
    requires clock <= later
    ensures Delay(jobs, q, later) <= Delay(jobs, q, clock)
  {
    if q != [] {
      DelayShrinks(jobs, q[1..], clock, later);
    }
  }

  lemma {:induction false} BudgetFrame(jobs: seq<Job>, q: seq<nat>, id: nat, job: Job)
    requires id < |jobs| && id !in q
    ensures Budget(jobs[id := job], q) == Budget(jobs, q)
  {
    if q != [] {
      BudgetFrame(jobs, q[1..], id, job);
    }
  }

  /** Waiting for the sleep to pass shortens the delay and keeps the attempts. */
  lemma RotationProgress(jobs: seq<Job>, queue: seq<nat>, clock: int, later: int)
    requires queue != [] && queue[0] < |jobs| && jobs[queue[0]].nextRetryAt > clock && later > clock
    ensures Budget(jobs, queue[1..] + [queue[0]]) == Budget(jobs, queue)
    ensures Delay(jobs, queue[1..] + [queue[0]], later) < Delay(jobs, queue, clock)
  {
    var id, rest := queue[0], queue[1..];
    BudgetConcat(jobs, rest, [id]);
    DelayConcat(jobs, rest, [id], later);
    DelayShrinks(jobs, rest, clock, later);
  }

  /** A delete attempt uses up an attempt or finishes the job. */
  lemma AttemptProgress(jobs: seq<Job>, queue: seq<nat>, reply: Reply, now: int)
    requires queue != [] && queue[0] < |jobs| && queue[0] !in queue[1..] && jobs[queue[0]].attempts < MAX_RETRIES
    ensures var id := queue[0];
            var rest := if Retried(jobs[id], reply) then queue[1..] + [id] else queue[1..];
            Budget(jobs[id := Settle(jobs[id], reply, now)], rest) < Budget(jobs, queue)
  {
    var id := queue[0];
    var jobs' := jobs[id := Settle(jobs[id], reply, now)];
    BudgetFrame(jobs, queue[1..], id, jobs'[id]);
    BudgetConcat(jobs', queue[1..], [id]);
  }

  /** A reply that storage may give; which one is not known. */
  method DeleteBatch(keys: set<Key>) returns (reply: Reply)
    ensures reply.Settled? ==> reply.failed <= keys
  {
    var some: set<Key> :| some <= keys;
    if * {
      reply := Settled(some);
    } else {
      reply := Threw(some);
    }
  }

  /** A later reading of the clock; which one is not known. */
  method Elapse(clock: int, atLeast: nat) returns (later: int)
    ensures later >= clock + atLeast
  {
    later :| later >= clock + atLeast;
  }

  /**
   The loop of `processQueue` between two awaits: `steps` led to the last await, `resumed` is under way,
   and `v` is what the fields hold at the loop head.
   */
  ghost predicate AtLoopHead(start: State, steps: seq<Step>, resumed: Step, v: State, clock: int) {
    var base := Run(start, steps);
    && Conserved(base)
    && (forall i :: 0 <= i < |steps| ==> !steps[i].Enqueue? && !steps[i].Destroy?)
    && (resumed.Fire? || resumed.Wake? || resumed.Answer?) && resumed.now == clock
    && Enabled(base, resumed) && Resume(base, resumed) == v && v.running == []
  }

  lemma HeadIsLive(v: State)
    requires Conserved(v) && v.queue != []
    ensures v.queue[0] < |v.jobs| && Live(v.jobs[v.queue[0]]) && v.queue[0] !in v.queue[1..]
  {
    var id := v.queue[0];
    assert v.queue == [id] + v.queue[1..];
    assert id in Pending(v) && Pending(v)[id] == 1;
  }

  lemma IdleIsDone(v: State)
    requires Conserved(v) && v.queue == [] && v.running == []
    ensures forall id :: 0 <= id < |v.jobs| ==> Done(v.jobs[id])
  {
  }

  lemma ReachAwait(start: State, steps: seq<Step>, resumed: Step, v: State, clock: int)
    requires AtLoopHead(start, steps, resumed, v, clock)
    ensures Run(start, steps + [resumed]) == LoopHead(v, clock)
    ensures Conserved(v) && Conserved(LoopHead(v, clock))
  {
    assert (steps + [resumed])[..|steps|] == steps;
    var base := Run(start, steps);
    ResumeConserves(base, resumed);
    StepConserves(base, resumed);
    assert Apply(base, resumed) == LoopHead(v, clock);
  }

  /** The head of the queue is not due: it goes to the back and the processor sleeps. */
  lemma SleepPass(start: State, steps: seq<Step>, resumed: Step, v: State, clock: int, later: int)
    requires AtLoopHead(start, steps, resumed, v, clock) && v.queue != [] && clock < later
    requires v.queue[0] < |v.jobs| && v.jobs[v.queue[0]].nextRetryAt > clock
    ensures AtLoopHead(start, steps + [resumed], Wake(0, later), v.(queue := v.queue[1..] + [v.queue[0]]), later)
  {
    hide Run, Conserved;
    ReachAwait(start, steps, resumed, v, clock);
  }

  /** The head of the queue is due: it is taken off and one delete attempt is made. */
  lemma DeletePass(start: State, steps: seq<Step>, resumed: Step, v: State, clock: int, reply: Reply, later: int)
    requires AtLoopHead(start, steps, resumed, v, clock) && v.queue != []
    requires v.queue[0] < |v.jobs| && v.jobs[v.queue[0]].nextRetryAt <= clock
    ensures AtLoopHead(start, steps + [resumed], Answer(0, reply, later),
                       Finish(v.(queue := v.queue[1..]), v.queue[0], reply, later), later)
  {
    hide Run, Conserved, Settle, Retried;
    ReachAwait(start, steps, resumed, v, clock);
    var base := LoopHead(v, clock);
    assert base == v.(queue := v.queue[1..], running := [Deleting(v.queue[0])]);
    assert base.(running := Drop(base.running, 0)) == v.(queue := v.queue[1..]);
  }

  lemma QueueHead(start: State, steps: seq<Step>, resumed: Step, v: State, clock: int)
    requires AtLoopHead(start, steps, resumed, v, clock) && v.queue != []
    ensures v.queue[0] < |v.jobs| && v.jobs[v.queue[0]].attempts < MAX_RETRIES && v.queue[0] !in v.queue[1..]
  {
    ReachAwait(start, steps, resumed, v, clock);
    HeadIsLive(v);
  }

  lemma QueueEmpty(start: State, steps: seq<Step>, resumed: Step, v: State, clock: int)
    requires AtLoopHead(start, steps, resumed, v, clock) && v.queue == []
    ensures Run(start, steps + [resumed]) == v.(processing := false)
    ensures forall i :: 0 <= i < |steps + [resumed]| ==>
            !(steps + [resumed])[i].Enqueue? && !(steps + [resumed])[i].Destroy?
    ensures forall id :: 0 <= id < |v.jobs| ==> Done(v.jobs[id])
  {
    ReachAwait(start, steps, resumed, v, clock);
    IdleIsDone(v);
  }

  class MediaCleanupQueue {
    var jobs: seq<Job>
    var queue: seq<nat>
    var processing: bool
    var timer: bool
    var clock: int
    ghost var armed: nat  // callbacks that the event loop will still deliver

    ghost function Value(): State
      reads this
    {
      State(jobs, queue, processing, timer, armed, [])
    }

    constructor ()
      ensures Value() == EMPTY
    {
      jobs, queue, processing, timer, clock, armed := [], [], false, false, 0, 0;
    }

    method Enqueue(kind: Kind, keys: set<Key>)
      modifies this
      ensures Value() == Apply(old(Value()), Step.Enqueue(kind, keys, old(clock))) && clock == old(clock)
      ensures old(Conserved(Value())) ==> Conserved(Value())
      ensures old(Scheduled(Value())) ==> Scheduled(Value()) && (timer || processing)
    {
      ghost var before, step := Value(), Step.Enqueue(kind, keys, clock);
      if Conserved(before) { StepConserves(before, step); }
      if Scheduled(before) { StepScheduled(before, step); }
      hide Conserved, Scheduled, NewJob;
      assert Scheduled(before) ==> Apply(before, step).timer || Apply(before, step).processing;
      queue := queue + [|jobs|];
      jobs := jobs + [NewJob(kind, keys, clock)];
      if !processing && !timer {
        timer, armed := true, armed + 1;
      }
    }

    /** One `deleteBatch` for a job that was shifted off the queue, with the update of the job object. */
    method Attempt(id: nat) returns (ghost reply: Reply)
      requires id < |jobs|
      modifies `jobs, `queue, `clock
      ensures clock >= old(clock)
      ensures Value() == Finish(old(Value()), id, reply, clock)
    {
      var job := jobs[id];
      var answer := DeleteBatch(job.keys);
      reply := answer;
      clock := Elapse(clock, 0);
      var failed := if answer.Settled? then answer.failed else job.keys;
      job := job.(deleted := job.deleted + (job.keys - failed),
                  failures := job.failures + map k | k in failed && k in job.failures :: job.failures[k] + 1);
      if answer.Threw? || failed != {} {
        job := job.(attempts := job.attempts + 1);
        if job.attempts < MAX_RETRIES {
          job := job.(keys := failed, nextRetryAt := clock + Backoff(job.attempts));
          queue := queue + [id];
        } else {
          job := job.(keys := {}, abandoned := job.abandoned + failed);
        }
      } else {
        job := job.(keys := {});
      }
      assert failed == FailedKeys(old(jobs)[id], answer);
      jobs := jobs[id := job];
    }

    /** One pass of the loop: from the loop head over the await back to the loop head. */
    method Pass(ghost start: State, ghost steps: seq<Step>, ghost resumed: Step) returns (ghost next: Step)
      requires AtLoopHead(start, steps, resumed, Value(), clock) && queue != []
      modifies `jobs, `queue, `clock
      ensures AtLoopHead(start, steps + [resumed], next, Value(), clock)
      ensures Budget(jobs, queue) < old(Budget(jobs, queue))
           || (Budget(jobs, queue) == old(Budget(jobs, queue))
               && Delay(jobs, queue, clock) < old(Delay(jobs, queue, clock)))
    {
      hide AtLoopHead, Budget, Delay, Settle, Retried;
      ghost var v, clock0 := Value(), clock;
      QueueHead(start, steps, resumed, v, clock);
      var id := queue[0];
      queue := queue[1..];
      if jobs[id].nextRetryAt > clock {
        queue := queue + [id];
        clock := Elapse(clock, 100);
        RotationProgress(v.jobs, v.queue, clock0, clock);
        SleepPass(start, steps, resumed, v, clock0, clock);
        next := Wake(0, clock);
      } else {
        ghost var reply := Attempt(id);
        AttemptProgress(v.jobs, v.queue, reply, clock);
        DeletePass(start, steps, resumed, v, clock0, reply, clock);
        next := Answer(0, reply, clock);
      }
    }

    /**
     The timer callback, run to its end while nobody enqueues. It ends for every pattern of replies,
     and then every key ever accepted is deleted, or was abandoned after exactly three failures.
     */
    method ProcessQueue() returns (ghost steps: seq<Step>)
      requires Scheduled(Value()) && Conserved(Value()) && armed > 0
      modifies this
      ensures Value() == Run(old(Value()), steps)
      ensures forall i :: 0 <= i < |steps| ==> !steps[i].Enqueue? && !steps[i].Destroy?
      ensures queue == [] && !processing && !timer
      ensures forall id :: 0 <= id < |jobs| ==> Done(jobs[id])
    {
      ghost var start := Value();
      ghost var resumed := Fire(clock);
      steps := [];
      processing, timer, armed := true, false, armed - 1;
      assert AtLoopHead(start, steps, resumed, Value(), clock);
      hide AtLoopHead, Budget, Delay, Conserved, Scheduled, Done;
      while queue != []
        invariant AtLoopHead(start, steps, resumed, Value(), clock)
        invariant processing && !timer
        decreases Budget(jobs, queue), Delay(jobs, queue, clock)
      {
        ghost var next := Pass(start, steps, resumed);
        steps, resumed := steps + [resumed], next;
      }
      QueueEmpty(start, steps, resumed, Value(), clock);
      steps := steps + [resumed];
      processing := false;
    }
  }
}
