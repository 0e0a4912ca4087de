/**
 The three BullMQ queues behind `QueueService` and the search of `removeJob`.  A queue is a finite map of
 job records by id plus the listing of its repeatable jobs; finished records stay for a while.
 */
module Queues {
  import opened Wrappers

  datatype Priority = Critical | High | Medium | Low

  datatype QueueName = HighPriority | MediumPriority | LowPriority

  const QUEUE_ORDER := [HighPriority, MediumPriority, LowPriority]

  function GetQueueName(p: Priority): QueueName {
    match p
    case Critical => HighPriority
    case High => HighPriority
    case Medium => MediumPriority
    case Low => LowPriority
  }

  type ScheduleId = nat

  /** Ids given by the scheduler, ids BullMQ makes up, and keys of repeatable jobs. */
  datatype JobId = OfSchedule(schedule: ScheduleId) | Generated(n: nat) | RepeatKey(n: nat)

  datatype JobState = Waiting | Active | Completed | Failed

  const JOB_ATTEMPTS := 3
  const MAX_STALLED_COUNT := 5

  datatype Job = Job(schedule: ScheduleId, state: JobState, attemptsLeft: nat, stallsLeft: nat)

  function NewJob(schedule: ScheduleId): Job {
    Job(schedule, Waiting, JOB_ATTEMPTS, MAX_STALLED_COUNT)
  }

  datatype Repeatable = Repeatable(id: Option<JobId>, key: JobId)

  datatype Queue = Queue(jobs: map<JobId, Job>, repeatables: seq<Repeatable>)

  datatype ThreeQueues = ThreeQueues(high: Queue, medium: Queue, low: Queue) {
    function Get(name: QueueName): Queue {
      match name
      case HighPriority => high
      case MediumPriority => medium
      case LowPriority => low
    }

    function Set(name: QueueName, q: Queue): (qs: ThreeQueues)
      ensures forall other: QueueName :: qs.Get(other) == if other == name then q else Get(other)
    {
      match name
      case HighPriority => this.(high := q)
      case MediumPriority => this.(medium := q)
      case LowPriority => this.(low := q)
    }
  }

  /** Which calls on one queue throw. */
  datatype Faults = Faults(getJob: bool, remove: bool, list: bool, removeRepeatable: bool)

  const NO_FAULTS := Faults(false, false, false, false)

  // ---------------------------------------------------------------- removal

  predicate Matches(r: Repeatable, id: JobId) {
    r.id == Some(id) || r.key == id
  }

  /** `find`: the first repeatable job with this id or key. */
  function FindRepeatable(rs: seq<Repeatable>, id: JobId): Option<Repeatable> {
    if rs == [] then None
    else if Matches(rs[0], id) then Some(rs[0])
    else FindRepeatable(rs[1..], id)
  }

  /** `removeRepeatableByKey`. */
  function WithoutKey(rs: seq<Repeatable>, key: JobId): seq<Repeatable> {
    if rs == [] then []
    else if rs[0].key == key then WithoutKey(rs[1..], key)
    else [rs[0]] + WithoutKey(rs[1..], key)
  }

  /** One turn of the search: the queue afterwards if something was removed.  A locked job cannot be removed. */
  function RemovedFrom(q: Queue, id: JobId, f: Faults): Option<Queue> {
    if f.getJob then None
    else if id in q.jobs then
      (if f.remove || q.jobs[id].state == Active then None else Some(q.(jobs := q.jobs - {id})))
    else if f.list then None
    else
      match FindRepeatable(q.repeatables, id)
      case None => None
      case Some(r) =>
        if f.removeRepeatable then None else Some(q.(repeatables := WithoutKey(q.repeatables, r.key)))
  }

  /** The search from queue number n on. */
  function RemoveFrom(qs: ThreeQueues, id: JobId, faults: QueueName -> Faults, n: nat): ThreeQueues
    requires n <= |QUEUE_ORDER|
    decreases |QUEUE_ORDER| - n
  {
    if n == |QUEUE_ORDER| then qs
    else
      var name := QUEUE_ORDER[n];
      match RemovedFrom(qs.Get(name), id, faults(name))
      case Some(q) => qs.Set(name, q)
      case None => RemoveFrom(qs, id, faults, n + 1)
  }

  function RemoveJob(qs: ThreeQueues, id: JobId, faults: QueueName -> Faults): ThreeQueues {
    RemoveFrom(qs, id, faults, 0)
  }

  /** `add`: a job under an id that exists is not added again. */
  function WithJob(qs: ThreeQueues, name: QueueName, id: JobId, schedule: ScheduleId): ThreeQueues {
    var q := qs.Get(name);
    if id in q.jobs then qs else qs.Set(name, q.(jobs := q.jobs[id := NewJob(schedule)]))
  }

  /** A job that is added waits with three attempts and five stalls left; under an existing id nothing is added. */
  lemma AddedExactly(qs: ThreeQueues, name: QueueName, id: JobId, schedule: ScheduleId)
    ensures var q, q' := qs.Get(name), WithJob(qs, name, id, schedule).Get(name);
            && q'.repeatables == q.repeatables && q'.jobs.Keys == q.jobs.Keys + {id}
            && (forall other <- q.jobs :: q'.jobs[other] == q.jobs[other])
            && (id !in q.jobs ==> q'.jobs[id] == Job(schedule, Waiting, 3, 5))
    ensures forall other: QueueName :: other != name ==> WithJob(qs, name, id, schedule).Get(other) == qs.Get(other)
  {
  }

  // ---------------------------------------------------------------- what removal removes

  ghost predicate KeysDistinct(rs: seq<Repeatable>) {
    forall i, j :: 0 <= i < j < |rs| ==> rs[i].key != rs[j].key
  }

  /** q' is q without the record id, which no worker holds, or without the one repeatable job at i, which matches id. */
  ghost predicate LostOne(q: Queue, q': Queue, id: JobId) {
    || (id in q.jobs && q.jobs[id].state != Active && q' == q.(jobs := q.jobs - {id}))
    || exists i :: 0 <= i < |q.repeatables| && LostRepeatable(q, q', id, i)
  }

  ghost predicate LostRepeatable(q: Queue, q': Queue, id: JobId, i: nat)
    requires i < |q.repeatables|
  {
    && Matches(q.repeatables[i], id)
    && q' == q.(repeatables := q.repeatables[..i] + q.repeatables[i + 1..])
  }

  lemma {:induction false} FoundAt(rs: seq<Repeatable>, id: JobId) returns (i: nat)
    requires FindRepeatable(rs, id).Some?
    ensures i < |rs| && rs[i] == FindRepeatable(rs, id).value && Matches(rs[i], id)
    decreases |rs|
  {
    if Matches(rs[0], id) {
      i := 0;
    } else {
      i := FoundAt(rs[1..], id);
      i := i + 1;
    }
  }

  lemma {:induction false} KeyAbsent(rs: seq<Repeatable>, key: JobId)
    requires forall i :: 0 <= i < |rs| ==> rs[i].key != key
    ensures WithoutKey(rs, key) == rs
    decreases |rs|
  {
    if rs != [] {
      KeyAbsent(rs[1..], key);
    }
  }

  lemma {:induction false} OneKeyLost(rs: seq<Repeatable>, i: nat)
    requires KeysDistinct(rs) && i < |rs|
    ensures WithoutKey(rs, rs[i].key) == rs[..i] + rs[i + 1..]
    decreases |rs|
  {
    if i == 0 {
      KeyAbsent(rs[1..], rs[0].key);
    } else {
      OneKeyLost(rs[1..], i - 1);
      assert rs[1..][..i - 1] == rs[1..i] && rs[1..][i..] == rs[i + 1..];
      assert rs[..i] + rs[i + 1..] == [rs[0]] + (rs[1..i] + rs[i + 1..]);
    }
  }

  lemma RemovedIsOne(q: Queue, id: JobId, f: Faults)
    requires KeysDistinct(q.repeatables) && RemovedFrom(q, id, f).Some?
    ensures LostOne(q, RemovedFrom(q, id, f).value, id)
  {
    if id !in q.jobs {
      var i := FoundAt(q.repeatables, id);
      OneKeyLost(q.repeatables, i);
      assert LostRepeatable(q, RemovedFrom(q, id, f).value, id, i);
    }
  }

  /**
   One turn removes something exactly if an idle record carries the id and neither call on it throws, or there
   is no record, some repeatable job carries the id, and none of the three calls throws.
   */
  lemma RemovalFindsExactly(q: Queue, id: JobId, f: Faults)
    ensures RemovedFrom(q, id, f).Some?
            <==> !f.getJob && if id in q.jobs then q.jobs[id].state != Active && !f.remove
                              else !f.list && !f.removeRepeatable
                                   && exists r <- q.repeatables :: r.id == Some(id) || r.key == id
  {
    FoundExactly(q.repeatables, id);
    assert forall r <- q.repeatables :: Matches(r, id) <==> r.id == Some(id) || r.key == id;
  }

  lemma {:induction false} FoundExactly(rs: seq<Repeatable>, id: JobId)
    ensures FindRepeatable(rs, id).Some? <==> exists r <- rs :: Matches(r, id)
    decreases |rs|
  {
    if rs != [] {
      FoundExactly(rs[1..], id);
      assert forall r <- rs :: r == rs[0] || r in rs[1..];
    }
  }

  /**
   Whatever the queues hold and whichever calls throw, a removal changes at most one of the three queues,
   and there takes out exactly one entry, one that carries the id.
   */
  lemma RemovesAtMostOne(qs: ThreeQueues, id: JobId, faults: QueueName -> Faults)
    requires forall name: QueueName :: KeysDistinct(qs.Get(name).repeatables)
    ensures var qs' := RemoveJob(qs, id, faults);
            qs' == qs || exists name: QueueName ::
              LostOne(qs.Get(name), qs'.Get(name), id) && qs' == qs.Set(name, qs'.Get(name))
  {
    RemovesAtMostOneFrom(qs, id, faults, 0);
  }

  lemma {:induction false} RemovesAtMostOneFrom(qs: ThreeQueues, id: JobId, faults: QueueName -> Faults, n: nat)
    requires n <= |QUEUE_ORDER| && forall name: QueueName :: KeysDistinct(qs.Get(name).repeatables)
    ensures var qs' := RemoveFrom(qs, id, faults, n);
            qs' == qs || exists name: QueueName ::
              LostOne(qs.Get(name), qs'.Get(name), id) && qs' == qs.Set(name, qs'.Get(name))
    decreases |QUEUE_ORDER| - n
  {
    if n < |QUEUE_ORDER| {
      var name := QUEUE_ORDER[n];
      if RemovedFrom(qs.Get(name), id, faults(name)).Some? {
        RemovedIsOne(qs.Get(name), id, faults(name));
        assert RemoveFrom(qs, id, faults, n).Get(name) == RemovedFrom(qs.Get(name), id, faults(name)).value;
      } else {
        RemovesAtMostOneFrom(qs, id, faults, n + 1);
      }
    }
  }

  /** The search takes the high queue before the medium one before the low one: the first that yields something loses it. */
  lemma FirstQueueLoses(qs: ThreeQueues, id: JobId, faults: QueueName -> Faults)
    ensures RemoveJob(qs, id, faults)
            == var high, medium, low := RemovedFrom(qs.high, id, faults(HighPriority)),
                                        RemovedFrom(qs.medium, id, faults(MediumPriority)),
                                        RemovedFrom(qs.low, id, faults(LowPriority));
               if high.Some? then ThreeQueues(high.value, qs.medium, qs.low)
               else if medium.Some? then ThreeQueues(qs.high, medium.value, qs.low)
               else if low.Some? then ThreeQueues(qs.high, qs.medium, low.value)
               else qs
  {
    assert RemoveFrom(qs, id, faults, 3) == qs;
    assert RemoveFrom(qs, id, faults, 2) == if RemovedFrom(qs.low, id, faults(LowPriority)).Some? then
                                              qs.(low := RemovedFrom(qs.low, id, faults(LowPriority)).value) else qs;
  }

  /** The record under id in this queue can be removed: no worker holds it, and neither call on it throws. */
  predicate Removable(q: Queue, id: JobId, f: Faults) {
    id in q.jobs && q.jobs[id].state != Active && !f.getJob && !f.remove
  }

  /** A removal under an id that one queue at most and no repeatable job carries takes that record if it can, and nothing else. */
  lemma {:induction false} RemovedIfRemovable(qs: ThreeQueues, id: JobId, faults: QueueName -> Faults, at: QueueName, n: nat)
    requires n <= |QUEUE_ORDER| && exists k :: n <= k < |QUEUE_ORDER| && QUEUE_ORDER[k] == at
    requires forall name: QueueName :: name != at ==> id !in qs.Get(name).jobs
    requires forall name: QueueName :: FindRepeatable(qs.Get(name).repeatables, id) == None
    ensures var q := qs.Get(at);
            RemoveFrom(qs, id, faults, n) == if Removable(q, id, faults(at)) then qs.Set(at, q.(jobs := q.jobs - {id})) else qs
    decreases |QUEUE_ORDER| - n
  {
    var name := QUEUE_ORDER[n];
    assert FindRepeatable(qs.Get(name).repeatables, id) == None;
    if name == at {
      NothingElsewhere(qs, id, faults, at, n + 1);
    } else {
      assert id !in qs.Get(name).jobs;
      RemovedIfRemovable(qs, id, faults, at, n + 1);
    }
  }

  /** Queues past the one with the record lose nothing. */
  lemma {:induction false} NothingElsewhere(qs: ThreeQueues, id: JobId, faults: QueueName -> Faults, at: QueueName, n: nat)
    requires n <= |QUEUE_ORDER| && forall k :: n <= k < |QUEUE_ORDER| ==> QUEUE_ORDER[k] != at
    requires forall name: QueueName :: name != at ==> id !in qs.Get(name).jobs
    requires forall name: QueueName :: FindRepeatable(qs.Get(name).repeatables, id) == None
    ensures RemoveFrom(qs, id, faults, n) == qs
    decreases |QUEUE_ORDER| - n
  {
    if n < |QUEUE_ORDER| {
      var name := QUEUE_ORDER[n];
      assert name != at && id !in qs.Get(name).jobs;
      assert FindRepeatable(qs.Get(name).repeatables, id) == None;
      NothingElsewhere(qs, id, faults, at, n + 1);
    }
  }
}
