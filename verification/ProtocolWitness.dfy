/**
 Concrete runs of the delivery protocol showing where its promises end.  Each helper lemma takes one step
 of a trace and states the state it leads to.
 */
module ProtocolWitness {
  import opened Wrappers
  import opened Messages
  import opened Protocol
  import opened LeaseSafety
  import ProtocolTheorems

  const EMPTY := State(0, None, map[], map[], map[], map[], map[])

  /** Steps taken from the empty system, and where they lead. */
  datatype Trace = Trace(steps: seq<Step>, s: State)

  ghost predicate Genuine(t: Trace) {
    Valid(EMPTY, t.steps) && After(EMPTY, t.steps) == t.s
  }

  lemma Then(t: Trace, step: Step) returns (t': Trace)
    requires Genuine(t) && Enabled(t.s, step)
    ensures Genuine(t') && t'.s == Apply(t.s, step)
    ensures AllAtomic(t'.steps) <==> AllAtomic(t.steps) && Atomic(step)
  {
    One(t.s, step);
    ValidAppend(EMPTY, t.steps, [step]);
    assert t.steps == (t.steps + [step])[..|t.steps|] && (t.steps + [step])[|t.steps|] == step;
    assert forall i :: 0 <= i < |t.steps| ==> (t.steps + [step])[i] == t.steps[i];
    t' := Trace(t.steps + [step], Apply(t.s, step));
  }

  // ---------------------------------------------------------------- one message, one run at a time

  const DTO := CreateDto("c", "hello", None, 10)
  const ROW := Message(7, "u", "c", "hello", None, 10, Pending, 0)
  const LATER := UserOp.UpdateOp(UpdateDto(Some(1000000), None, None))
  const EDIT := UserOp.UpdateOp(UpdateDto(None, Some("edited"), None))
  const RESET := Thrown(Text("ECONNRESET"), Absent, Absent, Absent)
  const FRESH := Tally(0, 0, 0, 0, 0, 0, 0, 0)

  /** The table holds one row, PENDING. */
  predicate Alone(s: State, m: Message) {
    s.rows == map[7 := m] && m.id == 7 && m.status == Pending
  }

  /** The row is created for time 10 and becomes due. */
  lemma DueRow() returns (t: Trace)
    ensures Genuine(t) && AllAtomic(t.steps)
    ensures t.s == EMPTY.(clock := 10, rows := map[7 := ROW], tally := map[7 := FRESH])
  {
    t := Then(Trace([], EMPTY), Create(7, "u", DTO));
    t := Then(t, TimePasses(10));
  }

  lemma Acquired(t: Trace, r: RunId, pod: Pod) returns (t': Trace)
    requires Genuine(t) && r !in t.s.runs && !LockLive(t.s)
    ensures Genuine(t') && (AllAtomic(t'.steps) <==> AllAtomic(t.steps))
    ensures t'.s == t.s.(runs := t.s.runs[r := Run(pod, t.s.clock + LOCK_TTL_MS, false, Started, t.s.clock, map[], [])],
                         lock := Some(Lease(pod, t.s.clock + LOCK_TTL_MS)))
  {
    t' := Then(t, Acquire(r, pod));
  }

  lemma Selected(t: Trace, r: RunId, m: Message) returns (t': Trace)
    requires Genuine(t) && r in t.s.runs && t.s.runs[r].pc.Started? && Alone(t.s, m) && m.scheduledAt <= t.s.clock
    ensures Genuine(t') && (AllAtomic(t'.steps) <==> AllAtomic(t.steps))
    ensures r in t'.s.runs && t'.s.runs[r].pc == Claiming(t.s.clock, [7])
    ensures t'.s == t.s.(runs := t.s.runs[r := t'.s.runs[r]])
  {
    var t1 := ClockRead(t, r);
    assert IsSelection(t1.s.rows, t.s.clock, [7]);
    t' := Then(t1, Select(r, [7]));
  }

  lemma ClockRead(t: Trace, r: RunId) returns (t': Trace)
    requires Genuine(t) && r in t.s.runs && t.s.runs[r].pc.Started?
    ensures Genuine(t') && (AllAtomic(t'.steps) <==> AllAtomic(t.steps))
    ensures t'.s == t.s.(runs := t.s.runs[r := t.s.runs[r].(pc := Selecting(t.s.clock), now := t.s.clock)])
  {
    t' := Then(t, ReadClock(r));
  }

  lemma ClaimedRow(t: Trace, r: RunId, m: Message) returns (t': Trace)
    requires Genuine(t) && r in t.s.runs && t.s.runs[r].pc.Claiming? && t.s.runs[r].pc.candidates == [7]
    requires Alone(t.s, m)
    ensures Genuine(t') && (AllAtomic(t'.steps) <==> AllAtomic(t.steps))
    ensures r in t'.s.runs && t'.s.runs[r].pc == Sending && t'.s.runs[r].claimed == [m.(status := Processing)]
    ensures t'.s == t.s.(runs := t.s.runs[r := t'.s.runs[r]],
                         rows := map[7 := m.(status := Processing)], owner := t'.s.owner)
  {
    var batch := [m.(status := Processing)];
    assert batch[0].id == 7;
    assert HasId(batch, 7);
    assert IsReturned(t.s.rows, [7], batch);
    assert ClaimRows(t.s.rows, [7]) == map[7 := m.(status := Processing)];
    t' := Then(t, Claim(r, batch));
  }

  lemma Called(t: Trace, r: RunId, m: Message) returns (t': Trace)
    requires Genuine(t) && r in t.s.runs && t.s.runs[r].pc == Sending && t.s.runs[r].claimed == [m] && m.id == 7
    requires 7 in t.s.tally
    ensures Genuine(t') && (AllAtomic(t'.steps) <==> AllAtomic(t.steps))
    ensures t'.s == t.s.(runs := t.s.runs[r := t.s.runs[r].(pc := Awaiting(true))],
                         tally := t.s.tally[7 := t.s.tally[7].(attempts := t.s.tally[7].attempts + 1,
                                                               delivered := t.s.tally[7].delivered + 1)])
  {
    t' := Then(t, Call(r, true));
  }

  lemma Replied(t: Trace, r: RunId, m: Message) returns (t': Trace)
    requires Genuine(t) && r in t.s.runs && t.s.runs[r].pc == Awaiting(true) && t.s.runs[r].claimed == [m] && m.id == 7
    requires 7 in t.s.tally
    ensures Genuine(t') && (AllAtomic(t'.steps) <==> AllAtomic(t.steps))
    ensures t'.s == t.s.(runs := t.s.runs[r := t.s.runs[r].(pc := Saving(m.(status := Sent)))],
                         tally := t.s.tally[7 := t.s.tally[7].(accepted := t.s.tally[7].accepted + 1)])
  {
    t' := Then(t, ReplyOk(r));
  }

  lemma Saved(t: Trace, r: RunId, m: Message) returns (t': Trace)
    requires Genuine(t) && r in t.s.runs && t.s.runs[r].pc == Saving(m) && |t.s.runs[r].claimed| == 1 && m.id == 7
    ensures Genuine(t') && (AllAtomic(t'.steps) <==> AllAtomic(t.steps))
    ensures t'.s == t.s.(runs := t'.s.runs, rows := t.s.rows[7 := m]) && t'.s.runs.Keys == t.s.runs.Keys
  {
    t' := Then(t, SaveOk(r));
  }

  /** A pod-1 run claims the only row and has its send accepted; SENT is not saved yet. */
  lemma UpToAccepted(t: Trace, r: RunId, m: Message) returns (t': Trace)
    requires Genuine(t) && r !in t.s.runs && !LockLive(t.s)
    requires Alone(t.s, m) && m.scheduledAt <= t.s.clock && 7 in t.s.tally
    ensures Genuine(t') && (AllAtomic(t'.steps) <==> AllAtomic(t.steps))
    ensures t'.s.rows == map[7 := m.(status := Processing)]
    ensures r in t'.s.runs && t'.s.runs[r].pc == Saving(m.(status := Sent))
            && t'.s.runs[r].claimed == [m.(status := Processing)]
    ensures t'.s.runs.Keys == t.s.runs.Keys + {r}
    ensures t'.s.lock == Some(Lease(1, t.s.clock + LOCK_TTL_MS))
    ensures t'.s.clock == t.s.clock && t'.s.drafts == t.s.drafts
    ensures var before := t.s.tally[7];
            t'.s.tally == t.s.tally[7 := before.(attempts := before.attempts + 1,
                                                 delivered := before.delivered + 1,
                                                 accepted := before.accepted + 1)]
  {
    var t1 := UpToClaimed(t, r, m);
    var t2 := Called(t1, r, m.(status := Processing));
    t' := Replied(t2, r, m.(status := Processing));
  }

  lemma UpToClaimed(t: Trace, r: RunId, m: Message) returns (t': Trace)
    requires Genuine(t) && r !in t.s.runs && !LockLive(t.s) && Alone(t.s, m) && m.scheduledAt <= t.s.clock
    ensures Genuine(t') && (AllAtomic(t'.steps) <==> AllAtomic(t.steps))
    ensures t'.s.rows == map[7 := m.(status := Processing)]
    ensures r in t'.s.runs && t'.s.runs[r].pc == Sending && t'.s.runs[r].claimed == [m.(status := Processing)]
    ensures t'.s.runs.Keys == t.s.runs.Keys + {r}
    ensures t'.s.lock == Some(Lease(1, t.s.clock + LOCK_TTL_MS))
    ensures t'.s.clock == t.s.clock && t'.s.drafts == t.s.drafts && t'.s.tally == t.s.tally
  {
    var t1 := Acquired(t, r, 1);
    var t2 := Selected(t1, r, m);
    t' := ClaimedRow(t2, r, m);
  }

  lemma Waited(t: Trace) returns (t': Trace)
    requires Genuine(t)
    ensures Genuine(t') && (AllAtomic(t'.steps) <==> AllAtomic(t.steps))
    ensures t'.s == t.s.(clock := t.s.clock + 60000)
  {
    t' := Then(t, TimePasses(60000));
  }

  /** The claim does not look at scheduledAt again: a reschedule between select and claim is sent early. */
  lemma RescheduledRowIsSentEarly() returns (t: Trace)
    ensures Genuine(t) && AllAtomic(t.steps)
    ensures Enabled(t.s, Call(0, true)) && t.s.runs[0].claimed[0].id in t.s.rows
    ensures t.s.clock < t.s.rows[t.s.runs[0].claimed[0].id].scheduledAt
  {
    t := DueRow();
    t := Acquired(t, 0, 1);
    t := Selected(t, 0, ROW);
    t := Rescheduled(t);
    t := ClaimedRow(t, 0, ROW.(scheduledAt := 1000000));
  }

  lemma Rescheduled(t: Trace) returns (t': Trace)
    requires Genuine(t) && Alone(t.s, ROW) && t.s.clock == 10
    ensures Genuine(t') && (AllAtomic(t'.steps) <==> AllAtomic(t.steps))
    ensures t'.s == t.s.(rows := map[7 := ROW.(scheduledAt := 1000000)], tally := t'.s.tally)
  {
    assert UserResult(t.s, 7, "u", LATER) == Ok(ROW.(scheduledAt := 1000000));
    assert t.s.rows[7 := ROW.(scheduledAt := 1000000)] == map[7 := ROW.(scheduledAt := 1000000)];
    t' := Then(t, User(7, "u", LATER));
  }

  /**
   With the read and the save of an update apart, a save that does not find the row as it was read puts a
   sent row back to PENDING: the message is accepted twice although no save failed and no reply was lost.
   */
  lemma SplitUpdateDeliversTwice() returns (t: Trace)
    ensures Genuine(t) && !AllCareful(EMPTY, t.steps)
    ensures 7 in t.s.tally && t.s.tally[7].accepted == 2 && t.s.tally[7].lostSaves == t.s.tally[7].lostReplies == 0
    ensures 7 in t.s.rows && t.s.tally[7].overwrites == 1
  {
    var m := ROW.(content := "edited");
    t := DueRow();
    t := EditRead(t);
    t := UpToAccepted(t, 0, ROW);
    t := Saved(t, 0, ROW.(status := Sent));
    t := EditSaved(t);
    assert t.s.rows == map[7 := m];
    t := Waited(t);
    t := UpToAccepted(t, 1, m);
    if AllCareful(EMPTY, t.steps) {
      assert Reaches(EMPTY, t.steps, t.s);
      ProtocolTheorems.DeliveryBound(t.s, 7);
    }
  }

  lemma EditRead(t: Trace) returns (t': Trace)
    requires Genuine(t) && Alone(t.s, ROW) && t.s.clock == 10 && t.s.drafts == map[]
    ensures Genuine(t') && !AllAtomic(t'.steps)
    ensures t'.s == t.s.(drafts := map[0 := Draft(10, ROW, EDIT, ROW.(content := "edited"))])
  {
    assert UserResult(t.s, 7, "u", EDIT) == Ok(ROW.(content := "edited"));
    t' := Then(t, ReadDraft(0, 7, "u", EDIT));
  }

  lemma EditSaved(t: Trace) returns (t': Trace)
    requires Genuine(t) && t.s.drafts == map[0 := Draft(10, ROW, EDIT, ROW.(content := "edited"))]
    requires InDelivery(t.s, 7) && 7 in t.s.tally
    ensures Genuine(t') && !AllAtomic(t'.steps)
    ensures t'.s == t.s.(rows := t.s.rows[7 := ROW.(content := "edited")], drafts := map[],
                         tally := t.s.tally[7 := t.s.tally[7].(overwrites := t.s.tally[7].overwrites + 1)])
  {
    t' := Then(t, SaveDraft(0));
  }

  const SOON := UserOp.UpdateOp(UpdateDto(Some(20), None, None))

  /** A split update checks the new time when it reads: saved late, though careful, it reschedules into the past. */
  lemma SplitRescheduleIntoThePast() returns (t: Trace)
    ensures Genuine(t) && AllCareful(EMPTY, t.steps)
    ensures Alone(t.s, ROW.(scheduledAt := 20)) && t.s.clock > 20 && 7 in t.s.tally && t.s.tally[7].stale == 1
  {
    t := DueRow();
    AtomicIsCareful(EMPTY, t.steps);
    assert UserResult(t.s, 7, "u", SOON) == Ok(ROW.(scheduledAt := 20));
    t := ThenCareful(t, ReadDraft(0, 7, "u", SOON));
    t := ThenCareful(t, TimePasses(60000));
    t := ThenCareful(t, SaveDraft(0));
  }

  lemma ThenCareful(t: Trace, step: Step) returns (t': Trace)
    requires Genuine(t) && AllCareful(EMPTY, t.steps) && Enabled(t.s, step) && Careful(t.s, step)
    ensures Genuine(t') && AllCareful(EMPTY, t'.steps) && t'.s == Apply(t.s, step)
  {
    One(t.s, step);
    assert [step][1..] == [];
    ValidAppend(EMPTY, t.steps, [step]);
    CarefulAppend(EMPTY, t.steps, [step]);
    t' := Trace(t.steps + [step], Apply(t.s, step));
  }

  /** The delivery bound is attained: after one failed save of SENT the message is accepted again. */
  lemma LostSaveDeliversTwice() returns (t: Trace)
    ensures Genuine(t) && AllAtomic(t.steps)
    ensures 7 in t.s.tally && t.s.tally[7].accepted == 2 && t.s.tally[7].lostSaves == 1 && t.s.tally[7].lostReplies == 0
  {
    t := DueRow();
    t := UpToAccepted(t, 0, ROW);
    t := SaveLost(t);
    t := Saved(t, 0, ROW.(retryCount := 1));
    assert t.s.rows == map[7 := ROW.(retryCount := 1)];
    t := Waited(t);
    t := UpToAccepted(t, 1, ROW.(retryCount := 1));
  }

  lemma SaveLost(t: Trace) returns (t': Trace)
    requires Genuine(t) && 0 in t.s.runs && t.s.runs[0].pc == Saving(ROW.(status := Sent)) && |t.s.runs[0].claimed| == 1
    requires t.s.runs[0].claimed[0].id == 7
    requires 7 in t.s.tally
    ensures Genuine(t') && (AllAtomic(t'.steps) <==> AllAtomic(t.steps))
    ensures t'.s == t.s.(runs := t.s.runs[0 := t.s.runs[0].(pc := Saving(ROW.(retryCount := 1)))],
                         tally := t.s.tally[7 := t.s.tally[7].(lostSaves := t.s.tally[7].lostSaves + 1)])
  {
    assert IsTransientError(RESET);
    t' := Then(t, SaveFails(0, RESET));
  }

  // ---------------------------------------------------------------- attempts

  lemma RejectedTransiently(t: Trace, r: RunId, m: Message, after: Message) returns (t': Trace)
    requires Genuine(t) && r in t.s.runs && t.s.runs[r].pc == Awaiting(true) && t.s.runs[r].claimed == [m] && m.id == 7
    requires 7 in t.s.tally
    requires after == if m.retryCount <= 2 then m.(status := Pending, retryCount := m.retryCount + 1) else m.(status := Failed)
    ensures Genuine(t') && (AllAtomic(t'.steps) <==> AllAtomic(t.steps))
    ensures t'.s == t.s.(runs := t.s.runs[r := t.s.runs[r].(pc := Saving(after))],
                         tally := t.s.tally[7 := t.s.tally[7].(lostReplies := t.s.tally[7].lostReplies + 1)])
  {
    assert IsTransientError(RESET);
    t' := Then(t, ReplyError(r, RESET));
  }

  /** One run of the only row, rejected with a transient error; then the lock has run out. */
  lemma RejectedRun(t: Trace, r: RunId, m: Message, after: Message) returns (t': Trace)
    requires Genuine(t) && AllAtomic(t.steps) && r !in t.s.runs && !LockLive(t.s)
    requires Alone(t.s, m) && m.scheduledAt <= t.s.clock && 7 in t.s.tally
    requires after == if m.retryCount <= 2 then m.(retryCount := m.retryCount + 1) else m.(status := Failed)
    ensures Genuine(t') && AllAtomic(t'.steps) && !LockLive(t'.s) && t'.s.clock >= t.s.clock
    ensures t'.s.rows == map[7 := after] && t'.s.runs.Keys == t.s.runs.Keys + {r}
    ensures 7 in t'.s.tally && t'.s.tally[7].attempts == t.s.tally[7].attempts + 1
  {
    var claimed := m.(status := Processing);
    var t1 := UpToClaimed(t, r, m);
    var t2 := Called(t1, r, claimed);
    var t3 := RejectedTransiently(t2, r, claimed, after);
    var t4 := Saved(t3, r, after);
    t' := Waited(t4);
  }

  /**
   The attempt bound is attained, and no sooner than at the fourth rejection does the row fail: after each of
   three transient rejections it is PENDING with one more retry, after the fourth it is FAILED.
   */
  lemma FourAttempts() returns (ts: seq<Trace>)
    ensures |ts| == 5
    ensures forall i :: 0 <= i < 5 ==>
              && Genuine(ts[i]) && AllAtomic(ts[i].steps)
              && ts[i].s.rows == map[7 := if i == 4 then ROW.(status := Failed, retryCount := 3) else ROW.(retryCount := i)]
              && 7 in ts[i].s.tally && ts[i].s.tally[7].attempts == i
  {
    var t0 := DueRow();
    var t1 := RejectedRun(t0, 0, ROW, ROW.(retryCount := 1));
    var t2 := RejectedRun(t1, 1, ROW.(retryCount := 1), ROW.(retryCount := 2));
    var t3 := RejectedRun(t2, 2, ROW.(retryCount := 2), ROW.(retryCount := 3));
    var t4 := RejectedRun(t3, 3, ROW.(retryCount := 3), ROW.(status := Failed, retryCount := 3));
    ts := [t0, t1, t2, t3, t4];
  }

  // ---------------------------------------------------------------- the lease

  /** A run whose select fails releases the lock of its pod, whoever's run holds it. */
  lemma GaveUp(t: Trace, r: RunId) returns (t': Trace)
    requires Genuine(t) && r in t.s.runs && t.s.runs[r].pc.Started? && LockLive(t.s)
    requires t.s.lock.value.owner == t.s.runs[r].pod
    ensures Genuine(t') && (AllAtomic(t'.steps) <==> AllAtomic(t.steps))
    ensures r in t'.s.runs && t'.s == t.s.(runs := t.s.runs[r := t'.s.runs[r]], lock := None)
  {
    t' := Then(t, ReadClock(r));
    t' := Then(t', SelectFails(r));
    t' := Then(t', Release(r, true));
  }

  /**
   One pod, two overlapping runs: the first run outlives its lease, the second acquires, the first
   one's release deletes the second one's lock, and another pod acquires: two unexpired leases.
   */
  lemma OverlapBreaksLease() returns (t: Trace)
    ensures Genuine(t) && AllAtomic(t.steps) && !AtMostOneHolder(t.s)
  {
    t := Trace([], EMPTY);
    t := Acquired(t, 0, 1);
    t := Waited(t);
    t := Acquired(t, 1, 1);
    t := GaveUp(t, 0);
    t := Acquired(t, 2, 2);
    assert Holding(t.s, 1) && Holding(t.s, 2);
  }
}
