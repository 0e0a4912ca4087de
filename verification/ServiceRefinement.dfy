/**
 Every invocation of the service class, with any faults, is a run of the step machine, so what the machine
 keeps is kept by the methods.
 */
module ServiceRefinement {
  import opened Wrappers
  import opened Messages
  import opened Protocol
  import opened MessageService
  import ProtocolTheorems

  /** Atomic steps lead from s to s'. */
  ghost predicate LeadsTo(s: State, steps: seq<Step>, s': State) {
    Valid(s, steps) && AllAtomic(steps) && After(s, steps) == s'
  }

  lemma Extend(s: State, steps: seq<Step>, s1: State, step: Step) returns (more: seq<Step>)
    requires LeadsTo(s, steps, s1) && Enabled(s1, step) && Atomic(step)
    ensures LeadsTo(s, more, Apply(s1, step))
  {
    One(s1, step);
    ValidAppend(s, steps, [step]);
    more := steps + [step];
  }

  /** The run is in its loop with these claims left. */
  ghost predicate Looping(s: State, r: RunId, batch: seq<Message>) {
    r in s.runs && s.runs[r].pc == Sending && s.runs[r].claimed == batch
  }

  /** Only run r, the table and the counts changed. */
  ghost predicate SameLock(s: State, s': State, r: RunId) {
    r in s.runs && r in s'.runs && s'.lock == s.lock && s'.clock == s.clock && s'.runs[r].pod == s.runs[r].pod
  }

  /** What the loop has in hand once the reply and a failed save of SENT are dealt with. */
  function Write(m: Message, a: Attempt): Message {
    match CaughtError(a)
    case None => m.(status := Sent)
    case Some(e) => AfterError(m, e)
  }

  lemma UpToReply(s: State, r: RunId, batch: seq<Message>, reply: Reply) returns (s': State, steps: seq<Step>)
    requires Looping(s, r, batch) && batch != []
    ensures LeadsTo(s, steps, s') && SameLock(s, s', r) && s'.rows == s.rows
    ensures s'.runs[r].pc == Saving(Settle(batch[0], reply)) && s'.runs[r].claimed == batch
  {
    var call := Call(r, reply.Accepted?);
    One(s, call);
    var s1 := Apply(s, call);
    match reply
    case Accepted =>
      steps := Extend(s, [call], s1, ReplyOk(r));
      s' := ReplyOkStep(s1, r);
    case Rejected(e) =>
      steps := Extend(s, [call], s1, ReplyError(r, e));
      s' := ReplyErrorStep(s1, r, e);
  }

  lemma UpToWrite(s: State, r: RunId, batch: seq<Message>, a: Attempt) returns (s': State, steps: seq<Step>)
    requires Looping(s, r, batch) && batch != []
    ensures LeadsTo(s, steps, s') && SameLock(s, s', r) && s'.rows == s.rows
    ensures s'.runs[r].pc == Saving(Write(batch[0], a)) && s'.runs[r].claimed == batch
  {
    s', steps := UpToReply(s, r, batch, a.reply);
    if a.reply.Accepted? && a.sentSave.Some? {
      steps := Extend(s, steps, s', SaveFails(r, a.sentSave.value));
      s' := SaveFailsStep(s', r, a.sentSave.value);
    }
  }

  /** One `sendMessage`: the loop goes on with the row written, or the run is in `finally`. */
  lemma SendIsSteps(s: State, r: RunId, batch: seq<Message>, a: Attempt) returns (s': State, steps: seq<Step>)
    requires Looping(s, r, batch) && batch != []
    ensures LeadsTo(s, steps, s') && SameLock(s, s', r)
    ensures match SendOutcome(batch[0], a)
            case Written(row) => s'.rows == s.rows[row.id := row] && Looping(s', r, batch[1..])
            case Threw => s'.rows == s.rows && s'.runs[r].pc == Releasing
  {
    var s1, first := UpToWrite(s, r, batch, a);
    if SendOutcome(batch[0], a).Threw? {
      steps := Extend(s, first, s1, SaveFails(r, a.catchSave.value));
      s' := SaveFailsStep(s1, r, a.catchSave.value);
    } else {
      steps := Extend(s, first, s1, SaveOk(r));
      s' := SaveOkStep(s1, r);
    }
  }

  lemma Join(s: State, a: seq<Step>, s1: State, b: seq<Step>, s2: State) returns (steps: seq<Step>)
    requires LeadsTo(s, a, s1) && LeadsTo(s1, b, s2)
    ensures LeadsTo(s, steps, s2)
  {
    ValidAppend(s, a, b);
    steps := a + b;
  }

  lemma {:induction false} LoopIsSteps(s: State, r: RunId, batch: seq<Message>, attempt: Id -> Attempt)
    returns (s': State, steps: seq<Step>)
    requires Looping(s, r, batch)
    ensures LeadsTo(s, steps, s') && SameLock(s, s', r)
    ensures s'.runs[r].pc == Releasing && s'.rows == AfterBatch(s.rows, batch, attempt)
    decreases |batch|
  {
    if batch == [] {
      s' := Apply(s, FinishLoop(r));
      steps := [FinishLoop(r)];
      One(s, FinishLoop(r));
    } else {
      var s1, first := SendIsSteps(s, r, batch, attempt(batch[0].id));
      if SendOutcome(batch[0], attempt(batch[0].id)).Threw? {
        s', steps := s1, first;
      } else {
        var rest;
        s', rest := LoopIsSteps(s1, r, batch[1..], attempt);
        steps := Join(s, first, s1, rest, s');
      }
    }
  }

  /** Clock read, selection and claim, up to the loop or straight to `finally`. */
  lemma BodyIsSteps(s: State, r: RunId, env: TickEnvironment, ids: seq<Id>, batch: seq<Message>)
    returns (s': State, steps: seq<Step>)
    requires r in s.runs && s.runs[r].pc == Started && s.runs[r].claimed == [] && s.clock == env.selectNow
    requires !env.selectFails ==> IsSelection(s.rows, env.selectNow, ids)
    requires !env.selectFails && !env.claimFails ==> IsReturned(s.rows, ids, batch)
    ensures LeadsTo(s, steps, s') && SameLock(s, s', r) && s'.runs[r].pc == Releasing
    ensures s'.rows == if env.selectFails || env.claimFails then s.rows
                       else AfterBatch(ClaimRows(s.rows, ids), batch, env.attempt)
  {
    One(s, ReadClock(r));
    s', steps := Apply(s, ReadClock(r)), [ReadClock(r)];
    if env.selectFails {
      steps := Extend(s, steps, s', SelectFails(r));
      s' := WithPc(s', r, Releasing);
    } else {
      steps := Extend(s, steps, s', Select(r, ids));
      s' := SelectStep(s', r, ids);
      if ids == [] {
        NoneReturned(s.rows, batch, env);
      } else if env.claimFails {
        steps := Extend(s, steps, s', ClaimFails(r));
        s' := WithPc(s', r, Releasing);
      } else {
        var s1, rest;
        steps := Extend(s, steps, s', Claim(r, batch));
        s1 := ClaimStep(s', r, batch);
        s', rest := LoopIsSteps(s1, r, batch, env.attempt);
        steps := Join(s, steps, s1, rest, s');
      }
    }
  }

  lemma NoneReturned(rows: Table, batch: seq<Message>, env: TickEnvironment)
    requires !env.claimFails ==> IsReturned(rows, [], batch)
    ensures !env.claimFails ==> AfterBatch(ClaimRows(rows, []), batch, env.attempt) == rows
  {
    assert forall id :: !Claimable(rows, id, []);
    assert !env.claimFails && batch != [] ==> Claimable(rows, batch[0].id, []);
  }

  /** A live lock turns the invocation away; a free one lets it in. */
  lemma EntryIsSteps(s: State, r: RunId, pod: Pod) returns (s': State, steps: seq<Step>)
    requires r !in s.runs
    ensures LeadsTo(s, steps, s') && s'.clock == s.clock && s'.rows == s.rows
    ensures if LockLive(s) then s' == s
            else r in s'.runs && s'.runs[r].pod == pod && s'.runs[r].pc == Started && s'.runs[r].claimed == []
                 && s'.lock == Some(Lease(pod, s.clock + LOCK_TTL_MS))
  {
    One(s, Acquire(r, pod));
    s', steps := Apply(s, Acquire(r, pod)), [Acquire(r, pod)];
  }

  /** `finally`: the release script runs if Redis is up. */
  lemma ExitIsSteps(s: State, r: RunId, redisUp: bool, now: int) returns (s': State, steps: seq<Step>)
    requires r in s.runs && s.runs[r].pc == Releasing && s.clock <= now
    ensures LeadsTo(s, steps, s') && s'.rows == s.rows
    ensures r in s'.runs && s'.runs[r].pod == s.runs[r].pod && s'.runs[r].pc == Ended
    ensures s'.lock == if redisUp then AfterRelease(s.lock, now, s.runs[r].pod) else s.lock
  {
    One(s, TimePasses(now - s.clock));
    var s1 := Apply(s, TimePasses(now - s.clock));
    steps := Extend(s, [TimePasses(now - s.clock)], s1, Release(r, redisUp));
    s' := ReleaseStep(s1, r, redisUp);
  }

  /**
   Whatever an invocation of `processDueMessages` does to the table and the lock, under any faults, some
   run of the machine does.
   */
  lemma InvocationIsARun(
    s: State, r: RunId, pod: Pod, env: TickEnvironment,
    ran: bool, ids: seq<Id>, batch: seq<Message>, rows': Table, lock': Option<Lease>)
    returns (s': State, steps: seq<Step>)
    requires r !in s.runs && s.clock == env.lockNow <= env.selectNow <= env.releaseNow
    requires Invocation(s.rows, s.lock, pod, env, ran, ids, batch, rows', lock')
    ensures LeadsTo(s, steps, s') && s'.rows == rows' && s'.lock == lock'
    ensures ran <==> r in s'.runs
    ensures ran ==> s'.runs[r].pod == pod && s'.runs[r].pc == Ended
  {
    s', steps := EntryIsSteps(s, r, pod);
    if ran {
      var dt := env.selectNow - env.lockNow;
      steps := Extend(s, steps, s', TimePasses(dt));
      s' := Apply(s', TimePasses(dt));
      var body, rest := BodyIsSteps(s', r, env, ids, batch);
      steps := Join(s, steps, s', rest, body);
      s', rest := ExitIsSteps(body, r, env.redisUp, env.releaseNow);
      steps := Join(s, steps, body, rest, s');
    }
  }

  /**
   So an invocation on a reachable state ends in a reachable one, where the promises of ProtocolTheorems
   hold, and itself loses no row, lowers no retry counter and leaves SENT, FAILED and CANCELLED rows as
   they were.
   */
  lemma InvocationKeepsPromises(
    s: State, r: RunId, pod: Pod, env: TickEnvironment,
    ran: bool, ids: seq<Id>, batch: seq<Message>, rows': Table, lock': Option<Lease>)
    returns (s': State)
    requires Reachable(s) && r !in s.runs && s.clock == env.lockNow <= env.selectNow <= env.releaseNow
    requires Invocation(s.rows, s.lock, pod, env, ran, ids, batch, rows', lock')
    ensures Reachable(s') && s'.rows == rows' && s'.lock == lock'
    ensures forall id <- s.rows ::
              && id in rows' && s.rows[id].retryCount <= rows'[id].retryCount
              && (ProtocolTheorems.Terminal(s.rows[id]) ==> rows'[id] == s.rows[id])
  {
    var steps;
    s', steps := InvocationIsARun(s, r, pod, env, ran, ids, batch, rows', lock');
    AtomicIsCareful(s, steps);
    var s0, before :| Reaches(s0, before, s);
    ValidAppend(s0, before, steps);
    CarefulAppend(s0, before, steps);
    assert Reaches(s0, before + steps, s');
    forall id <- s.rows
      ensures id in rows' && s.rows[id].retryCount <= rows'[id].retryCount
      ensures ProtocolTheorems.Terminal(s.rows[id]) ==> rows'[id] == s.rows[id]
    {
      ProtocolTheorems.RowsConserved(s, steps, id);
    }
  }
}
