/** `QueueService` as an object over the three queues, proved against the functions of Queues. */
module QueueService {
  import opened Wrappers
  import opened Queues

  class QueueService {
    var high: Queue
    var medium: Queue
    var low: Queue

    constructor (qs: ThreeQueues)
      ensures View() == qs
    {
      high, medium, low := qs.high, qs.medium, qs.low;
    }

    function View(): ThreeQueues
      reads this
    {
      ThreeQueues(high, medium, low)
    }

    method AddJob(name: QueueName, id: JobId, schedule: ScheduleId)
      modifies this
      ensures forall other: QueueName :: other != name ==> View().Get(other) == old(View()).Get(other)
      ensures View().Get(name) == var q := old(View()).Get(name);
                                  if id in q.jobs then q else q.(jobs := q.jobs[id := Job(schedule, Waiting, 3, 5)])
      ensures View() == WithJob(old(View()), name, id, schedule)
    {
      match name {
        case HighPriority =>
          if id !in high.jobs {
            high := high.(jobs := high.jobs[id := NewJob(schedule)]);
          }
        case MediumPriority =>
          if id !in medium.jobs {
            medium := medium.(jobs := medium.jobs[id := NewJob(schedule)]);
          }
        case LowPriority =>
          if id !in low.jobs {
            low := low.(jobs := low.jobs[id := NewJob(schedule)]);
          }
      }
    }

    /** The search over the three queues, continuing past a queue that throws. */
    method RemoveJob(id: JobId, faults: QueueName -> Faults)
      modifies this
      ensures View() == Queues.RemoveJob(old(View()), id, faults)
    {
      var n := 0;
      while n < |QUEUE_ORDER|
        invariant 0 <= n <= |QUEUE_ORDER| && View() == old(View())
        invariant Queues.RemoveJob(old(View()), id, faults) == RemoveFrom(old(View()), id, faults, n)
      {
        var name := QUEUE_ORDER[n];
        var removed := TryQueue(View().Get(name), id, faults(name));
        if removed.Some? {
          match name {
            case HighPriority => high := removed.value;
            case MediumPriority => medium := removed.value;
            case LowPriority => low := removed.value;
          }
          return;
        }
        n := n + 1;
      }
    }

    method TryQueue(q: Queue, id: JobId, f: Faults) returns (removed: Option<Queue>)
      ensures removed == RemovedFrom(q, id, f)
    {
      if f.getJob {
        return None;
      }
      if id in q.jobs {
        if f.remove || q.jobs[id].state == Active {
          return None;
        }
        return Some(q.(jobs := q.jobs - {id}));
      }
      if f.list {
        return None;
      }
      var r := FindRepeatable(q.repeatables, id);
      if r.None? || f.removeRepeatable {
        return None;
      }
      return Some(q.(repeatables := WithoutKey(q.repeatables, r.value.key)));
    }
  }
}
