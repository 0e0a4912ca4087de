/**
 Scheduling, cancelling and picking up jobs as a step machine over the three queues.  `scheduleJob` saves
 the schedule and then adds the job; `cancelSchedule` saves the inactive flag and then removes the job; a
 worker starts whatever job it picks up without looking at the flag.
 */
module Schedules {
  import opened Wrappers
  import opened Queues
  import opened Sets

  datatype Kind = Once | Immediate | Repeating

  /** Where `scheduleJob` stands with `queue.add`: not there yet, done, or it threw and nothing adds it later. */
  datatype Adding = Ahead | Added | Threw

  datatype Schedule = Schedule(kind: Kind, priority: Priority, isActive: bool, adding: Adding)

  datatype State = State(
    queues: ThreeQueues,
    schedules: map<ScheduleId, Schedule>,
    started: multiset<ScheduleId>,          // history: executions started by workers
    retried: multiset<ScheduleId>)          // history: failed jobs an operator put back

  datatype Step =
    | SaveSchedule(id: ScheduleId, kind: Kind, priority: Priority)
    | Enqueue(id: ScheduleId, autoId: nat)
    | EnqueueThrows(id: ScheduleId)
    | CancelSave(id: ScheduleId)
    | CancelRemove(id: ScheduleId, faults: QueueName -> Faults)
    | PickUp(queue: QueueName, job: JobId)
    | Finish(queue: QueueName, job: JobId)
    | WorkerThrows(queue: QueueName, job: JobId)
    | WorkerDies(queue: QueueName, job: JobId)
    | RetryFailed(queue: QueueName, job: JobId)   // one `job.retry()` of `retryFailedJobs`
    | Evict(queue: QueueName, job: JobId)         // a finished record is dropped

  predicate HasJob(s: State, name: QueueName, job: JobId, state: JobState) {
    job in s.queues.Get(name).jobs && s.queues.Get(name).jobs[job].state == state
  }

  predicate Enabled(s: State, step: Step) {
    match step
    case SaveSchedule(id, _, _) => id !in s.schedules
    case Enqueue(id, autoId) =>
      && id in s.schedules && s.schedules[id].adding == Ahead
      && Generated(autoId) !in s.queues.Get(GetQueueName(s.schedules[id].priority)).jobs
    case EnqueueThrows(id) => id in s.schedules && s.schedules[id].adding == Ahead
    case CancelSave(id) => id in s.schedules
    case CancelRemove(id, _) => id in s.schedules && !s.schedules[id].isActive
    case _ => step.job in s.queues.Get(step.queue).jobs && Takes(step, s.queues.Get(step.queue).jobs[step.job])
  }

  /** The step can happen to a job with this record. */
  predicate Takes(step: Step, j: Job)
    requires OnJob(step)
  {
    match step
    case PickUp(_, _) => j.state == Waiting
    case RetryFailed(_, _) => j.state == Failed
    case Evict(_, _) => j.state == Completed || j.state == Failed
    case _ => j.state == Active
  }

  /** A job whose worker threw goes back while attempts are left. */
  function AfterThrow(j: Job): Job {
    if j.attemptsLeft > 1 then j.(state := Waiting, attemptsLeft := j.attemptsLeft - 1)
    else j.(state := Failed, attemptsLeft := 0)
  }

  /** A job whose worker died goes back while stalls are left. */
  function AfterDeath(j: Job): Job {
    if j.stallsLeft > 0 then j.(state := Waiting, stallsLeft := j.stallsLeft - 1) else j.(state := Failed)
  }

  /** A step on one job. */
  predicate OnJob(step: Step) {
    step.PickUp? || step.Finish? || step.WorkerThrows? || step.WorkerDies? || step.RetryFailed? || step.Evict?
  }

  /** The job's record after the step, if it stays. */
  function JobAfter(step: Step, j: Job): Option<Job>
    requires OnJob(step)
  {
    match step
    case PickUp(_, _) => Some(j.(state := Active))
    case Finish(_, _) => Some(j.(state := Completed))
    case WorkerThrows(_, _) => Some(AfterThrow(j))
    case WorkerDies(_, _) => Some(AfterDeath(j))
    case RetryFailed(_, _) => Some(j.(state := Waiting))
    case Evict(_, _) => None
  }

  function OnJobStep(s: State, step: Step): State
    requires OnJob(step) && step.job in s.queues.Get(step.queue).jobs
  {
    var q := s.queues.Get(step.queue);
    var j := q.jobs[step.job];
    var after := JobAfter(step, j);
    s.(queues := s.queues.Set(step.queue, q.(jobs := if after.Some? then q.jobs[step.job := after.value] else q.jobs - {step.job})),
       started := if step.PickUp? then s.started + multiset{j.schedule} else s.started,
       retried := if step.RetryFailed? then s.retried + multiset{j.schedule} else s.retried)
  }

  /** `addToQueue`: only ONCE and repeating jobs carry the schedule's id. */
  function AddToQueue(qs: ThreeQueues, id: ScheduleId, schedule: Schedule, autoId: nat): ThreeQueues {
    var name := GetQueueName(schedule.priority);
    match schedule.kind
    case Once => WithJob(qs, name, OfSchedule(id), id)
    case Immediate => WithJob(qs, name, Generated(autoId), id)
    case Repeating =>
      var q := qs.Get(name);
      qs.Set(name, q.(repeatables := q.repeatables + [Repeatable(Some(OfSchedule(id)), RepeatKey(id))]))
  }

  function Apply(s: State, step: Step): State
    requires Enabled(s, step)
  {
    match step
    case SaveSchedule(id, kind, priority) => s.(schedules := s.schedules[id := Schedule(kind, priority, true, Ahead)])
    case Enqueue(id, autoId) =>
      s.(queues := AddToQueue(s.queues, id, s.schedules[id], autoId),
         schedules := s.schedules[id := s.schedules[id].(adding := Added)])
    case EnqueueThrows(id) => s.(schedules := s.schedules[id := s.schedules[id].(adding := Threw)])
    case CancelSave(id) => s.(schedules := s.schedules[id := s.schedules[id].(isActive := false)])
    case CancelRemove(id, faults) => s.(queues := RemoveJob(s.queues, OfSchedule(id), faults))
    case _ => OnJobStep(s, step)
  }

  predicate Valid(s: State, steps: seq<Step>)
    decreases |steps|
  {
    steps == [] || (Enabled(s, steps[0]) && Valid(Apply(s, steps[0]), steps[1..]))
  }

  function After(s: State, steps: seq<Step>): State
    requires Valid(s, steps)
    decreases |steps|
  {
    if steps == [] then s else After(Apply(s, steps[0]), steps[1..])
  }

  const EMPTY_QUEUE := Queue(map[], [])
  const EMPTY := State(ThreeQueues(EMPTY_QUEUE, EMPTY_QUEUE, EMPTY_QUEUE), map[], multiset{}, multiset{})

  // ---------------------------------------------------------------- invariant

  /** Jobs and repeatable jobs are where their schedules put them, under the ids they were given. */
  ghost predicate Inv(s: State) {
    forall name: QueueName :: QueueOk(s, name)
  }

  ghost predicate QueueOk(s: State, name: QueueName) {
    && (forall job <- s.queues.Get(name).jobs :: JobOk(s, name, job, s.queues.Get(name).jobs[job]))
    && (forall r <- s.queues.Get(name).repeatables :: RepeatableOk(s, r))
  }

  predicate JobOk(s: State, name: QueueName, id: JobId, job: Job) {
    && job.schedule in s.schedules
    && s.schedules[job.schedule].adding == Added
    && GetQueueName(s.schedules[job.schedule].priority) == name
    && match s.schedules[job.schedule].kind
       case Once => id == OfSchedule(job.schedule)
       case Immediate => id.Generated?
       case Repeating => false
  }

  predicate RepeatableOk(s: State, r: Repeatable) {
    && r.id.Some? && r.id.value.OfSchedule? && r.key == RepeatKey(r.id.value.schedule)
    && r.id.value.schedule in s.schedules && s.schedules[r.id.value.schedule].kind == Repeating
  }

  lemma {:induction false} SubsetOfRepeatables(rs: seq<Repeatable>, key: JobId)
    ensures forall r <- WithoutKey(rs, key) :: r in rs
    decreases |rs|
  {
    if rs != [] {
      SubsetOfRepeatables(rs[1..], key);
    }
  }

  lemma {:induction false} RemovalOnlyShrinks(qs: ThreeQueues, id: JobId, faults: QueueName -> Faults, n: nat, name: QueueName)
    requires n <= |QUEUE_ORDER|
    ensures var q, q' := qs.Get(name), RemoveFrom(qs, id, faults, n).Get(name);
            && q'.jobs.Keys <= q.jobs.Keys && (forall job <- q'.jobs :: q'.jobs[job] == q.jobs[job])
            && (forall r <- q'.repeatables :: r in q.repeatables)
    decreases |QUEUE_ORDER| - n
  {
    if n < |QUEUE_ORDER| {
      var here := QUEUE_ORDER[n];
      var q := qs.Get(here);
      if RemovedFrom(q, id, faults(here)).Some? {
        if id !in q.jobs {
          SubsetOfRepeatables(q.repeatables, FindRepeatable(q.repeatables, id).value.key);
        }
      } else {
        RemovalOnlyShrinks(qs, id, faults, n + 1, name);
      }
    }
  }

  /** Schedules keep what jobs rely on. */
  predicate SchedulesGrow(s: State, s': State) {
    forall id <- s.schedules ::
      && id in s'.schedules && s'.schedules[id].kind == s.schedules[id].kind
      && s'.schedules[id].priority == s.schedules[id].priority
      && (s.schedules[id].adding != Ahead ==> s'.schedules[id].adding == s.schedules[id].adding)
  }

  /** A queue that gained nothing but changes of job state stays in order. */
  lemma QueueKept(s: State, s': State, name: QueueName)
    requires QueueOk(s, name) && SchedulesGrow(s, s')
    requires var q, q' := s.queues.Get(name), s'.queues.Get(name);
             && (forall job <- q'.jobs :: job in q.jobs && q'.jobs[job].schedule == q.jobs[job].schedule)
             && (forall r <- q'.repeatables :: r in q.repeatables)
    ensures QueueOk(s', name)
  {
    var q, q' := s.queues.Get(name), s'.queues.Get(name);
    forall job <- q'.jobs ensures JobOk(s', name, job, q'.jobs[job]) {
      assert JobOk(s, name, job, q.jobs[job]);
    }
    forall r <- q'.repeatables ensures RepeatableOk(s', r) {
      assert RepeatableOk(s, r);
    }
  }

  lemma EnqueueKeeps(s: State, id: ScheduleId, autoId: nat, name: QueueName)
    requires Inv(s) && Enabled(s, Enqueue(id, autoId))
    ensures QueueOk(Apply(s, Enqueue(id, autoId)), name)
  {
    var s' := Apply(s, Enqueue(id, autoId));
    assert QueueOk(s, name) && SchedulesGrow(s, s');
    var q, q' := s.queues.Get(name), s'.queues.Get(name);
    AddedOnly(s, id, autoId, name);
    forall job <- q'.jobs ensures JobOk(s', name, job, q'.jobs[job]) {
      if job in q.jobs {
        assert JobOk(s, name, job, q.jobs[job]);
      }
    }
    forall r <- q'.repeatables ensures RepeatableOk(s', r) {
      if r in q.repeatables {
        assert RepeatableOk(s, r);
      }
    }
  }

  /** What `addToQueue` may add to a queue. */
  lemma AddedOnly(s: State, id: ScheduleId, autoId: nat, name: QueueName)
    requires id in s.schedules
    ensures var schedule, q := s.schedules[id], s.queues.Get(name);
            var q' := AddToQueue(s.queues, id, schedule, autoId).Get(name);
            && (forall job <- q'.jobs :: (job in q.jobs && q'.jobs[job] == q.jobs[job])
                  || (name == GetQueueName(schedule.priority) && q'.jobs[job] == NewJob(id)
                      && ((schedule.kind == Once && job == OfSchedule(id)) || (schedule.kind == Immediate && job == Generated(autoId)))))
            && (forall r <- q'.repeatables :: r in q.repeatables
                  || (schedule.kind == Repeating && r == Repeatable(Some(OfSchedule(id)), RepeatKey(id))))
  {
  }

  lemma StepKeepsInv(s: State, step: Step)
    requires Inv(s) && Enabled(s, step)
    ensures Inv(Apply(s, step))
  {
    forall name: QueueName ensures QueueOk(Apply(s, step), name) {
      assert QueueOk(s, name);
      if step.Enqueue? {
        EnqueueKeeps(s, step.id, step.autoId, name);
      } else if OnJob(step) {
        JobStepKeeps(s, step, name);
      } else {
        if step.CancelRemove? {
          RemovalOnlyShrinks(s.queues, OfSchedule(step.id), step.faults, 0, name);
        }
        QueueKept(s, Apply(s, step), name);
      }
    }
  }

  lemma KeepsSchedule(step: Step, j: Job)
    requires OnJob(step)
    ensures JobAfter(step, j).Some? ==> JobAfter(step, j).value.schedule == j.schedule
  {
  }

  lemma JobStepKeeps(s: State, step: Step, name: QueueName)
    requires Inv(s) && Enabled(s, step) && OnJob(step)
    ensures QueueOk(OnJobStep(s, step), name)
  {
    assert QueueOk(s, name);
    KeepsSchedule(step, s.queues.Get(step.queue).jobs[step.job]);
    QueueKept(s, OnJobStep(s, step), name);
  }

  lemma {:induction false} RunKeepsInv(s: State, steps: seq<Step>)
    requires Inv(s) && Valid(s, steps)
    ensures Inv(After(s, steps))
    decreases |steps|
  {
    if steps != [] {
      StepKeepsInv(s, steps[0]);
      RunKeepsInv(Apply(s, steps[0]), steps[1..]);
    }
  }

  // ---------------------------------------------------------------- the job of a ONCE schedule

  /** Where a ONCE schedule's job belongs. */
  function Home(s: State, id: ScheduleId): QueueName
    requires id in s.schedules
  {
    GetQueueName(s.schedules[id].priority)
  }

  /** The record of a ONCE schedule's job. */
  function RecordOf(s: State, id: ScheduleId): Option<Job>
    requires id in s.schedules
  {
    var jobs := s.queues.Get(Home(s, id)).jobs;
    if OfSchedule(id) in jobs then Some(jobs[OfSchedule(id)]) else None
  }

  predicate IsMine(s: State, step: Step, id: ScheduleId)
    requires id in s.schedules
  {
    OnJob(step) && step.queue == Home(s, id) && step.job == OfSchedule(id)
  }

  /** A step on the schedule's own job changes its record and its counts; a step on another job neither. */
  lemma JobStepEffect(s: State, step: Step, id: ScheduleId)
    requires Inv(s) && Enabled(s, step) && OnJob(step) && id in s.schedules && s.schedules[id].kind == Once
    ensures var s' := Apply(s, step);
            && s'.schedules == s.schedules
            && if IsMine(s, step, id) then
                 && RecordOf(s, id).Some? && Takes(step, RecordOf(s, id).value)
                 && RecordOf(s', id) == JobAfter(step, RecordOf(s, id).value)
                 && s'.started[id] == s.started[id] + (if step.PickUp? then 1 else 0)
                 && s'.retried[id] == s.retried[id] + (if step.RetryFailed? then 1 else 0)
               else
                 && RecordOf(s', id) == RecordOf(s, id)
                 && s'.started[id] == s.started[id] && s'.retried[id] == s.retried[id]
  {
    assert QueueOk(s, step.queue);
    assert JobOk(s, step.queue, step.job, s.queues.Get(step.queue).jobs[step.job]);
  }

  /** A removal takes the record of a ONCE schedule or leaves it. */
  lemma RemovalEffect(s: State, id: ScheduleId, other: ScheduleId, faults: QueueName -> Faults)
    requires id in s.schedules && Enabled(s, CancelRemove(other, faults))
    ensures var s' := Apply(s, CancelRemove(other, faults));
            s'.schedules == s.schedules && (RecordOf(s', id).Some? ==> RecordOf(s', id) == RecordOf(s, id))
  {
    RemovalOnlyShrinks(s.queues, OfSchedule(other), faults, 0, Home(s, id));
  }

  // ---------------------------------------------------------------- how often a job starts

  const MAX_STARTS := JOB_ATTEMPTS + MAX_STALLED_COUNT

  /** Each start of a ONCE schedule is paid for by an attempt or a stall of its job, or by an operator. */
  predicate StartsOk(s: State, id: ScheduleId) {
    if id !in s.schedules then s.started[id] == 0
    else
      s.schedules[id].kind == Once ==>
        && (s.schedules[id].adding != Added ==> s.started[id] == 0)
        && s.started[id] <= MAX_STARTS + s.retried[id]
        && (RecordOf(s, id).Some? ==> Paid(RecordOf(s, id).value, s.started[id], s.retried[id]))
  }

  /** What the job may still use up, next to the starts so far. */
  predicate Paid(job: Job, started: nat, retried: nat) {
    job.state != Completed ==>
      started + job.attemptsLeft + job.stallsLeft + (if job.attemptsLeft == 0 then 1 else 0)
      <= MAX_STARTS + retried + (if job.state == Waiting then 0 else 1)
  }

  lemma StepKeepsStarts(s: State, id: ScheduleId, step: Step)
    requires Inv(s) && Enabled(s, step) && StartsOk(s, id)
    ensures StartsOk(Apply(s, step), id)
  {
    if OnJob(step) {
      WorkerKeepsStarts(s, id, step);
    } else if step.SaveSchedule? {
      NewKeepsStarts(s, id, step);
    } else if step.Enqueue? {
      EnqueueKeepsStarts(s, id, step);
    } else if step.CancelRemove? && id in s.schedules {
      RemovalEffect(s, id, step.id, step.faults);
    }
  }

  lemma WorkerKeepsStarts(s: State, id: ScheduleId, step: Step)
    requires Inv(s) && Enabled(s, step) && StartsOk(s, id) && OnJob(step)
    ensures StartsOk(Apply(s, step), id)
  {
    if id !in s.schedules {
      assert QueueOk(s, step.queue);
      assert JobOk(s, step.queue, step.job, s.queues.Get(step.queue).jobs[step.job]);
    } else if s.schedules[id].kind == Once {
      JobStepEffect(s, step, id);
      if IsMine(s, step, id) {
        assert QueueOk(s, step.queue);
        assert JobOk(s, step.queue, step.job, RecordOf(s, id).value);
        PaidKept(RecordOf(s, id).value, step, s.started[id], s.retried[id]);
      }
    }
  }

  lemma PaidKept(j: Job, step: Step, started: nat, retried: nat)
    requires OnJob(step) && Takes(step, j) && Paid(j, started, retried) && started <= MAX_STARTS + retried
    ensures var started', retried' := if step.PickUp? then started + 1 else started,
                                      if step.RetryFailed? then retried + 1 else retried;
            && started' <= MAX_STARTS + retried'
            && (JobAfter(step, j).Some? ==> Paid(JobAfter(step, j).value, started', retried'))
  {
  }

  lemma NewKeepsStarts(s: State, id: ScheduleId, step: Step)
    requires Inv(s) && Enabled(s, step) && StartsOk(s, id) && step.SaveSchedule?
    ensures StartsOk(Apply(s, step), id)
  {
    if step.id == id {
      var name := GetQueueName(step.priority);
      var jobs := s.queues.Get(name).jobs;
      assert QueueOk(s, name);
      assert OfSchedule(id) in jobs ==> JobOk(s, name, OfSchedule(id), jobs[OfSchedule(id)]);
    }
  }

  lemma EnqueueKeepsStarts(s: State, id: ScheduleId, step: Step)
    requires Inv(s) && Enabled(s, step) && StartsOk(s, id) && step.Enqueue?
    ensures StartsOk(Apply(s, step), id)
  {
    if id in s.schedules {
      assert QueueOk(s, Home(s, id));
      if step.id == id {
        NotYetAdded(s, id);
      }
    }
  }

  lemma {:induction false} StartsKept(s: State, id: ScheduleId, steps: seq<Step>)
    requires Inv(s) && Valid(s, steps) && StartsOk(s, id)
    ensures StartsOk(After(s, steps), id)
    decreases |steps|
  {
    if steps != [] {
      StepKeepsStarts(s, id, steps[0]);
      StepKeepsInv(s, steps[0]);
      StartsKept(Apply(s, steps[0]), id, steps[1..]);
    }
  }

  /**
   Over any run, a ONCE schedule starts at most 3 + 5 executions, and one more for each time an operator
   retried its failed job.
   */
  lemma StartsBounded(steps: seq<Step>, id: ScheduleId)
    requires Valid(EMPTY, steps)
    ensures var s := After(EMPTY, steps);
            id in s.schedules && s.schedules[id].kind == Once ==> s.started[id] <= 8 + s.retried[id]
  {
    StartsKept(EMPTY, id, steps);
  }

  /** A ONCE schedule and its job after some steps from the start. */
  ghost predicate Reaches(steps: seq<Step>, id: ScheduleId, job: Job, started: nat, retried: nat) {
    && Valid(EMPTY, steps)
    && var s := After(EMPTY, steps);
       && id in s.schedules && s.schedules[id].kind == Once && RecordOf(s, id) == Some(job) && job.schedule == id
       && s.started[id] == started && s.retried[id] == retried
  }

  lemma {:induction false} Appended(s: State, steps: seq<Step>, step: Step)
    requires Valid(s, steps) && Enabled(After(s, steps), step)
    ensures Valid(s, steps + [step]) && After(s, steps + [step]) == Apply(After(s, steps), step)
    decreases |steps|
  {
    if steps == [] {
      assert [] + [step] == [step] && [step][1..] == [];
      assert After(Apply(s, step), []) == Apply(s, step);
    } else {
      assert (steps + [step])[0] == steps[0] && (steps + [step])[1..] == steps[1..] + [step];
      Appended(Apply(s, steps[0]), steps[1..], step);
    }
  }

  /** One step on the schedule's own job. */
  lemma OwnStep(past: seq<Step>, id: ScheduleId, job: Job, started: nat, retried: nat, step: Step) returns (steps: seq<Step>)
    requires Reaches(past, id, job, started, retried)
    requires IsMine(After(EMPTY, past), step, id) && Takes(step, job) && JobAfter(step, job).Some?
    ensures Reaches(steps, id, JobAfter(step, job).value,
                    started + (if step.PickUp? then 1 else 0), retried + (if step.RetryFailed? then 1 else 0))
  {
    var s := After(EMPTY, past);
    RunKeepsInv(EMPTY, past);
    JobStepEffect(s, step, id);
    KeepsSchedule(step, job);
    Appended(EMPTY, past, step);
    steps := past + [step];
  }

  /** A waiting job starts once more, and its worker throws or dies. */
  lemma Again(past: seq<Step>, id: ScheduleId, job: Job, started: nat, retried: nat, dies: bool)
    returns (steps: seq<Step>, job': Job)
    requires Reaches(past, id, job, started, retried) && job.state == Waiting
    ensures job' == if dies then AfterDeath(job.(state := Active)) else AfterThrow(job.(state := Active))
    ensures Reaches(steps, id, job', started + 1, retried)
  {
    var home := Home(After(EMPTY, past), id);
    steps := OwnStep(past, id, job, started, retried, PickUp(home, OfSchedule(id)));
    var held := job.(state := Active);
    home := Home(After(EMPTY, steps), id);
    var back := if dies then WorkerDies(home, OfSchedule(id)) else WorkerThrows(home, OfSchedule(id));
    job' := JobAfter(back, held).value;
    steps := OwnStep(steps, id, held, started + 1, retried, back);
  }

  lemma Scheduled() returns (steps: seq<Step>)
    ensures Reaches(steps, 0, NewJob(0), 0, 0)
  {
    var saved := Apply(EMPTY, SaveSchedule(0, Once, High));
    Appended(EMPTY, [], SaveSchedule(0, Once, High));
    steps := [] + [SaveSchedule(0, Once, High)];
    Appended(EMPTY, steps, Enqueue(0, 0));
    steps := steps + [Enqueue(0, 0)];
  }

  /** With as many deaths and throws of its workers as there are, and no retry, the job starts eight times and fails. */
  lemma AllAttemptsUsed() returns (steps: seq<Step>)
    ensures Reaches(steps, 0, Job(0, Failed, 0, 0), 8, 0)
  {
    steps := Scheduled();
    var job := NewJob(0);
    steps, job := Again(steps, 0, job, 0, 0, true);
    steps, job := Again(steps, 0, job, 1, 0, true);
    steps, job := Again(steps, 0, job, 2, 0, true);
    steps, job := Again(steps, 0, job, 3, 0, true);
    steps, job := Again(steps, 0, job, 4, 0, true);
    steps, job := Again(steps, 0, job, 5, 0, false);
    steps, job := Again(steps, 0, job, 6, 0, false);
    steps, job := Again(steps, 0, job, 7, 0, false);
  }

  /** The bound on starts is attained for every number of retries by hand. */
  lemma {:induction false} StartsAttained(n: nat) returns (steps: seq<Step>)
    ensures Reaches(steps, 0, Job(0, Failed, 0, 0), 8 + n, n)
  {
    if n == 0 {
      steps := AllAttemptsUsed();
    } else {
      steps := StartsAttained(n - 1);
      var job := Job(0, Failed, 0, 0);
      var home := Home(After(EMPTY, steps), 0);
      steps := OwnStep(steps, 0, job, 7 + n, n - 1, RetryFailed(home, OfSchedule(0)));
      steps, job := Again(steps, 0, job.(state := Waiting), 7 + n, n, false);
    }
  }

  // ---------------------------------------------------------------- scheduling

  /** A new schedule is active, and nothing is queued for it yet. */
  lemma SavedExactly(s: State, id: ScheduleId, kind: Kind, priority: Priority)
    requires Enabled(s, SaveSchedule(id, kind, priority))
    ensures var s' := Apply(s, SaveSchedule(id, kind, priority));
            s' == s.(schedules := s.schedules[id := Schedule(kind, priority, true, Ahead)])
            && forall autoId :: Generated(autoId) !in s.queues.Get(GetQueueName(priority)).jobs ==> Enabled(s', Enqueue(id, autoId))
  {
  }

  /** Cancelling marks the schedule and allows the removal; it leaves the queues. */
  lemma CancelledExactly(s: State, id: ScheduleId, faults: QueueName -> Faults)
    requires id in s.schedules
    ensures var s' := Apply(s, CancelSave(id));
            s' == s.(schedules := s.schedules[id := s.schedules[id].(isActive := false)]) && Enabled(s', CancelRemove(id, faults))
  {
  }

  /**
   Whatever its kind, a schedule that is added gets exactly one new entry, in the queue of its priority:
   ONCE a waiting job under the schedule's id, IMMEDIATE one under a new id, each with three attempts and
   five stalls, CRON and INTERVAL a repeatable job that carries the schedule's id.
   */
  lemma EnqueuedExactly(s: State, id: ScheduleId, autoId: nat)
    requires Inv(s) && Enabled(s, Enqueue(id, autoId))
    ensures var schedule := s.schedules[id];
            var name := match schedule.priority
                        case Critical => HighPriority
                        case High => HighPriority
                        case Medium => MediumPriority
                        case Low => LowPriority;
            var q, s' := s.queues.Get(name), Apply(s, Enqueue(id, autoId));
            && (forall other: QueueName :: other != name ==> s'.queues.Get(other) == s.queues.Get(other))
            && s'.schedules == s.schedules[id := schedule.(adding := Added)]
            && s'.started == s.started && s'.retried == s.retried
            && match schedule.kind
               case Once =>
                 && OfSchedule(id) !in q.jobs
                 && s'.queues.Get(name) == q.(jobs := q.jobs[OfSchedule(id) := Job(id, Waiting, 3, 5)])
               case Immediate =>
                 && Generated(autoId) !in q.jobs
                 && s'.queues.Get(name) == q.(jobs := q.jobs[Generated(autoId) := Job(id, Waiting, 3, 5)])
               case Repeating =>
                 s'.queues.Get(name) == q.(repeatables := q.repeatables + [Repeatable(Some(OfSchedule(id)), RepeatKey(id))])
  {
    if s.schedules[id].kind == Once {
      assert QueueOk(s, Home(s, id));
      NotYetAdded(s, id);
    }
  }

  /** So a worker can start every ONCE and every IMMEDIATE schedule once it is added. */
  lemma AddedStarts(s: State, id: ScheduleId, autoId: nat)
    requires Inv(s) && Enabled(s, Enqueue(id, autoId)) && s.schedules[id].kind != Repeating
    ensures CanStartFrom(Apply(s, Enqueue(id, autoId)), id)
  {
    EnqueuedExactly(s, id, autoId);
    var s', home := Apply(s, Enqueue(id, autoId)), Home(s, id);
    var job := if s.schedules[id].kind == Once then OfSchedule(id) else Generated(autoId);
    assert HasJob(s', home, job, Waiting) && s'.queues.Get(home).jobs[job].schedule == id;
    var step := PickUp(home, job);
    OneMore(s', step, []);
    assert After(s', [step] + []).started[id] == s'.started[id] + 1;
  }

  // ---------------------------------------------------------------- cancellation

  /** A ONCE schedule that will never start again: its add is over, and no record is left but a completed one. */
  predicate Gone(s: State, id: ScheduleId) {
    && id in s.schedules && s.schedules[id].kind == Once && s.schedules[id].adding != Ahead
    && (RecordOf(s, id).Some? ==> RecordOf(s, id).value.state == Completed)
  }

  lemma StaysGone(s: State, id: ScheduleId, step: Step)
    requires Inv(s) && Enabled(s, step) && Gone(s, id)
    ensures Gone(Apply(s, step), id) && Apply(s, step).started[id] == s.started[id]
  {
    if OnJob(step) {
      JobStepEffect(s, step, id);
    } else if step.CancelRemove? {
      RemovalEffect(s, id, step.id, step.faults);
    }
  }

  lemma {:induction false} GoneForever(s: State, id: ScheduleId, steps: seq<Step>)
    requires Inv(s) && Valid(s, steps) && Gone(s, id)
    ensures After(s, steps).started[id] == s.started[id]
    decreases |steps|
  {
    if steps != [] {
      StaysGone(s, id, steps[0]);
      StepKeepsInv(s, steps[0]);
      GoneForever(Apply(s, steps[0]), id, steps[1..]);
    }
  }

  lemma {:induction false} NoRepeatable(s: State, id: ScheduleId, rs: seq<Repeatable>)
    requires id in s.schedules && s.schedules[id].kind == Once
    requires forall r <- rs :: RepeatableOk(s, r)
    ensures FindRepeatable(rs, OfSchedule(id)) == None
    decreases |rs|
  {
    if rs != [] {
      assert RepeatableOk(s, rs[0]);
      NoRepeatable(s, id, rs[1..]);
    }
  }

  /** Whichever queue calls throw, a removal takes out the record of a ONCE schedule if it is removable, and nothing else. */
  lemma CancelTakesOut(s: State, id: ScheduleId, faults: QueueName -> Faults)
    requires Inv(s) && Enabled(s, CancelRemove(id, faults)) && s.schedules[id].kind == Once
    ensures var home := Home(s, id);
            var q := s.queues.Get(home);
            Apply(s, CancelRemove(id, faults))
            == if Removable(q, OfSchedule(id), faults(home)) then
                 s.(queues := s.queues.Set(home, q.(jobs := q.jobs - {OfSchedule(id)})))
               else s
  {
    var home := Home(s, id);
    forall name: QueueName
      ensures FindRepeatable(s.queues.Get(name).repeatables, OfSchedule(id)) == None
      ensures OfSchedule(id) in s.queues.Get(name).jobs ==> name == home
    {
      assert QueueOk(s, name);
      NoRepeatable(s, id, s.queues.Get(name).repeatables);
      if OfSchedule(id) in s.queues.Get(name).jobs {
        assert JobOk(s, name, OfSchedule(id), s.queues.Get(name).jobs[OfSchedule(id)]);
      }
    }
    assert home == QUEUE_ORDER[0] || home == QUEUE_ORDER[1] || home == QUEUE_ORDER[2];
    RemovedIfRemovable(s.queues, OfSchedule(id), faults, home, 0);
  }

  /** Some continuation has a worker start an execution of the schedule. */
  ghost predicate CanStartFrom(s: State, id: ScheduleId) {
    exists steps: seq<Step> :: Valid(s, steps) && After(s, steps).started[id] > s.started[id]
  }

  /** The removal finds nothing that could start again, or takes it out. */
  predicate RemovalStops(s: State, id: ScheduleId, f: Faults)
    requires id in s.schedules
  {
    match RecordOf(s, id)
    case None => true
    case Some(job) => job.state == Completed || (job.state != Active && !f.getJob && !f.remove)
  }

  /**
   In every reachable state, whichever queue calls of the removal throw, no worker ever starts a cancelled
   ONCE schedule again, whatever workers and operators do, exactly if `scheduleJob` was past its add, and
   its queue held no record, a completed one, or one that no worker held and neither `getJob` nor `remove`
   threw on.
   */
  lemma CancelStopsExactly(past: seq<Step>, id: ScheduleId, faults: QueueName -> Faults)
    requires Valid(EMPTY, past) && Enabled(After(EMPTY, past), CancelRemove(id, faults))
    requires After(EMPTY, past).schedules[id].kind == Once
    ensures var s := After(EMPTY, past);
            !CanStartFrom(Apply(s, CancelRemove(id, faults)), id)
            <==> s.schedules[id].adding != Ahead && RemovalStops(s, id, faults(Home(s, id)))
  {
    var s := After(EMPTY, past);
    RunKeepsInv(EMPTY, past);
    CancelTakesOut(s, id, faults);
    var s' := Apply(s, CancelRemove(id, faults));
    StepKeepsInv(s, CancelRemove(id, faults));
    if s.schedules[id].adding == Ahead {
      LateAddStarts(s', id);
    } else if !RemovalStops(s, id, faults(Home(s, id))) {
      LeftRecordStarts(s', id);
    } else {
      assert Gone(s', id);
      forall steps: seq<Step> | Valid(s', steps) ensures After(s', steps).started[id] == s'.started[id] {
        GoneForever(s', id, steps);
      }
    }
  }

  lemma OneMore(s: State, step: Step, rest: seq<Step>)
    requires Enabled(s, step) && Valid(Apply(s, step), rest)
    ensures Valid(s, [step] + rest) && After(s, [step] + rest) == After(Apply(s, step), rest)
  {
    assert ([step] + rest)[1..] == rest;
  }

  /** A start from s after one more step is a start from here, if that step starts nothing. */
  lemma StartsLater(s: State, step: Step, id: ScheduleId)
    requires Enabled(s, step) && CanStartFrom(Apply(s, step), id) && Apply(s, step).started[id] >= s.started[id]
    ensures CanStartFrom(s, id)
  {
    var rest: seq<Step> :| Valid(Apply(s, step), rest) && After(Apply(s, step), rest).started[id] > Apply(s, step).started[id];
    OneMore(s, step, rest);
  }

  lemma WaitingJobStarts(s: State, id: ScheduleId, name: QueueName)
    requires HasJob(s, name, OfSchedule(id), Waiting) && s.queues.Get(name).jobs[OfSchedule(id)].schedule == id
    ensures CanStartFrom(s, id)
  {
    var step := PickUp(name, OfSchedule(id));
    OneMore(s, step, []);
    assert After(s, [step] + []).started[id] == s.started[id] + 1;
  }

  lemma NotYetAdded(s: State, id: ScheduleId)
    requires id in s.schedules && s.schedules[id].adding == Ahead && QueueOk(s, Home(s, id))
    ensures OfSchedule(id) !in s.queues.Get(Home(s, id)).jobs
  {
    var jobs := s.queues.Get(Home(s, id)).jobs;
    assert OfSchedule(id) in jobs ==> JobOk(s, Home(s, id), OfSchedule(id), jobs[OfSchedule(id)]);
  }

  /** Cancelled between the save and the add: the add still happens, and a worker starts the job. */
  lemma LateAddStarts(s: State, id: ScheduleId)
    requires Inv(s) && id in s.schedules && s.schedules[id].kind == Once && s.schedules[id].adding == Ahead
    ensures CanStartFrom(s, id)
  {
    var home := Home(s, id);
    var autoId := FreshJob(s.queues.Get(home).jobs.Keys);
    assert QueueOk(s, home);
    NotYetAdded(s, id);
    WaitingJobStarts(Apply(s, Enqueue(id, autoId)), id, home);
    StartsLater(s, Enqueue(id, autoId), id);
  }

  lemma FreshJob(ids: set<JobId>) returns (n: nat)
    ensures Generated(n) !in ids
  {
    var used := set id | id in ids && id.Generated? :: id.n;
    assert forall k: nat :: Generated(k) in ids ==> k in used;
    n := Unused(used);
  }

  /** A record that is left and not completed starts: it waits, or a worker holds it, or an operator retries it. */
  lemma LeftRecordStarts(s: State, id: ScheduleId)
    requires Inv(s) && id in s.schedules && s.schedules[id].kind == Once
    requires RecordOf(s, id).Some? && RecordOf(s, id).value.state != Completed
    ensures CanStartFrom(s, id)
  {
    var home, job := Home(s, id), OfSchedule(id);
    assert QueueOk(s, home);
    assert JobOk(s, home, job, s.queues.Get(home).jobs[job]);
    match RecordOf(s, id).value.state
    case Waiting => WaitingJobStarts(s, id, home);
    case Active => HeldJobStarts(s, id);
    case Failed =>
      WaitingJobStarts(Apply(s, RetryFailed(home, job)), id, home);
      StartsLater(s, RetryFailed(home, job), id);
  }

  /** A job held by a worker is not removed; when its worker throws it goes back, at the latest by an operator. */
  lemma HeldJobStarts(s: State, id: ScheduleId)
    requires Inv(s) && id in s.schedules && s.schedules[id].kind == Once
    requires HasJob(s, Home(s, id), OfSchedule(id), Active)
    ensures CanStartFrom(s, id)
  {
    var home, job := Home(s, id), OfSchedule(id);
    assert QueueOk(s, home);
    assert JobOk(s, home, job, s.queues.Get(home).jobs[job]);
    var thrown := Apply(s, WorkerThrows(home, job));
    if HasJob(thrown, home, job, Failed) {
      WaitingJobStarts(Apply(thrown, RetryFailed(home, job)), id, home);
      StartsLater(thrown, RetryFailed(home, job), id);
    } else {
      WaitingJobStarts(thrown, id, home);
    }
    StartsLater(s, WorkerThrows(home, job), id);
  }
}
