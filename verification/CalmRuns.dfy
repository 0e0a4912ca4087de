/**
 The converse of TickRefinement: whatever the selection and whatever the replies, a free lock lets a calm
 run take the table to that Tick; and no lock, however its owner died, outlives its 55 seconds.
 So the histories of the progress bounds exist from every reachable state.
 */
module CalmRuns {
  import opened Messages
  import opened Protocol
  import opened TickRefinement
  import ProtocolSafety
  import Ticks

  /** steps are a calm way for r to end, leaving the table at rows. */
  ghost predicate Ends(s: State, r: RunId, steps: seq<Step>, rows: Table) {
    Valid(s, steps) && Calm(s, steps, r) && EndsIn(s, steps, r) && After(s, steps).rows == rows
  }

  lemma Prepend(s: State, r: RunId, step: Step, rest: seq<Step>, rows: Table)
    requires Enabled(s, step) && OwnStep(step, r) && Ends(Apply(s, step), r, rest, rows)
    ensures Ends(s, r, [step] + rest, rows)
  {
    assert ([step] + rest)[1..] == rest;
  }

  /** How the loop handles the first claimed message when its save succeeds. */
  function ReplyStep(r: RunId, reply: Reply): Step {
    match reply
    case Accepted => ReplyOk(r)
    case Rejected(e) => ReplyError(r, e)
  }

  ghost function AfterSend(s: State, r: RunId, reply: Reply): State
    requires r in s.runs && s.runs[r].pc == Sending && s.runs[r].claimed != []
  {
    Apply(Apply(Apply(s, Call(r, reply.Accepted?)), ReplyStep(r, reply)), SaveOk(r))
  }

  lemma SendOne(s: State, r: RunId, reply: Reply)
    requires r in s.runs && s.runs[r].pc == Sending && s.runs[r].claimed != []
    ensures var m, s' := s.runs[r].claimed[0], AfterSend(s, r, reply);
            && r in s'.runs && s'.runs[r].pc == Sending && s'.runs[r].claimed == s.runs[r].claimed[1..]
            && s'.rows == s.rows[m.id := Settle(m, reply)]
  {
  }

  lemma PrependSend(s: State, r: RunId, reply: Reply, rest: seq<Step>, rows: Table) returns (steps: seq<Step>)
    requires r in s.runs && s.runs[r].pc == Sending && s.runs[r].claimed != []
    requires Ends(AfterSend(s, r, reply), r, rest, rows)
    ensures Ends(s, r, steps, rows)
  {
    var call, answer := Call(r, reply.Accepted?), ReplyStep(r, reply);
    var s1 := Apply(s, call);
    var s2 := Apply(s1, answer);
    Prepend(s2, r, SaveOk(r), rest, rows);
    Prepend(s1, r, answer, [SaveOk(r)] + rest, rows);
    Prepend(s, r, call, [answer] + ([SaveOk(r)] + rest), rows);
    steps := [call] + ([answer] + ([SaveOk(r)] + rest));
  }

  /** The claims of r are distinct and are the rows themselves. */
  ghost predicate ClaimsAreRows(s: State, r: RunId)
    requires r in s.runs
  {
    var claimed := s.runs[r].claimed;
    && (forall i, j :: 0 <= i < j < |claimed| ==> claimed[i].id != claimed[j].id)
    && (forall i :: 0 <= i < |claimed| ==> claimed[i].id in s.rows && s.rows[claimed[i].id] == claimed[i])
  }

  lemma TailAreRows(s: State, r: RunId, s': State, settled: Message)
    requires r in s.runs && r in s'.runs && ClaimsAreRows(s, r) && s.runs[r].claimed != []
    requires s'.runs[r].claimed == s.runs[r].claimed[1..] && s'.rows == s.rows[s.runs[r].claimed[0].id := settled]
    ensures ClaimsAreRows(s', r)
  {
    var claimed := s.runs[r].claimed;
    assert forall i :: 0 <= i < |claimed[1..]| ==> claimed[1..][i] == claimed[i + 1] && claimed[i + 1].id != claimed[0].id;
  }

  lemma {:induction false} LoopCanEnd(s: State, r: RunId, reply: Id -> Reply) returns (steps: seq<Step>)
    requires r in s.runs && s.runs[r].pc == Sending && ClaimsAreRows(s, r)
    ensures Ends(s, r, steps, Settled(s.rows, s.runs[r].claimed, reply))
    decreases |s.runs[r].claimed|
  {
    var claimed := s.runs[r].claimed;
    if claimed == [] {
      NothingSettled(s.rows, reply);
      var s1 := Apply(s, FinishLoop(r));
      One(s1, Release(r, true));
      Prepend(s, r, FinishLoop(r), [Release(r, true)], s.rows);
      steps := [FinishLoop(r)] + [Release(r, true)];
    } else {
      var m := claimed[0];
      var s' := AfterSend(s, r, reply(m.id));
      SendOne(s, r, reply(m.id));
      TailAreRows(s, r, s', Settle(m, reply(m.id)));
      SettledCons(s.rows, claimed, reply(m.id), reply, reply);
      var rest := LoopCanEnd(s', r, reply);
      steps := PrependSend(s, r, reply(m.id), rest, Settled(s.rows, claimed, reply));
    }
  }

  /** What the update returns when every selected row is still PENDING. */
  lemma AllReturned(rows: Table, now: int, ids: seq<Id>) returns (batch: seq<Message>)
    requires Keyed(rows) && IsSelection(rows, now, ids)
    ensures IsReturned(rows, ids, batch)
  {
    batch := seq(|ids|, i requires 0 <= i < |ids| => rows[ids[i]].(status := Processing));
    forall id | Claimable(rows, id, ids) ensures HasId(batch, id) {
      var i :| 0 <= i < |ids| && ids[i] == id;
      assert batch[i].id == id;
    }
  }

  lemma SelectedCanEnd(s: State, r: RunId, ids: seq<Id>, reply: Id -> Reply) returns (steps: seq<Step>)
    requires r in s.runs && s.runs[r].pc.Claiming? && s.runs[r].pc.candidates == ids
    requires Keyed(s.rows) && IsSelection(s.rows, s.runs[r].pc.now, ids)
    ensures Ends(s, r, steps, Ticks.Tick(s.rows, ids, reply))
  {
    var batch := AllReturned(s.rows, s.runs[r].pc.now, ids);
    var s1 := Apply(s, Claim(r, batch));
    forall i | 0 <= i < |batch| ensures batch[i].id in s1.rows && s1.rows[batch[i].id] == batch[i] {
      assert Claimable(s.rows, batch[i].id, ids);
    }
    var rest := LoopCanEnd(s1, r, reply);
    ClaimThenSettle(s.rows, ids, batch, reply);
    Prepend(s, r, Claim(r, batch), rest, Ticks.Tick(s.rows, ids, reply));
    steps := [Claim(r, batch)] + rest;
  }

  lemma SelectingCanEnd(s: State, r: RunId, ids: seq<Id>, reply: Id -> Reply) returns (steps: seq<Step>)
    requires r in s.runs && s.runs[r].pc.Selecting? && s.runs[r].claimed == []
    requires Keyed(s.rows) && IsSelection(s.rows, s.runs[r].pc.now, ids)
    ensures Ends(s, r, steps, Ticks.Tick(s.rows, ids, reply))
  {
    var s1 := Apply(s, Select(r, ids));
    var rest;
    if ids == [] {
      NothingSettled(s.rows, reply);
      rest := [Release(r, true)];
      One(s1, rest[0]);
    } else {
      rest := SelectedCanEnd(s1, r, ids, reply);
    }
    Prepend(s, r, Select(r, ids), rest, Ticks.Tick(s.rows, ids, reply));
    steps := [Select(r, ids)] + rest;
  }

  /** With the lock free, every Tick of a selection made now is the effect of some calm run. */
  lemma EveryTickIsARun(s: State, r: RunId, pod: Pod, ids: seq<Id>, reply: Id -> Reply) returns (b: Block)
    requires !LockLive(s) && r !in s.runs && Keyed(s.rows) && IsSelection(s.rows, s.clock, ids)
    ensures b.RunBlock? && b.run == r && b.pod == pod && Takes(s, b)
    ensures After(s, StepsOf(b)).rows == Ticks.Tick(s.rows, ids, reply)
  {
    var s1 := Apply(s, Acquire(r, pod));
    var rest := SelectingCanEnd(Apply(s1, ReadClock(r)), r, ids, reply);
    Prepend(s1, r, ReadClock(r), rest, Ticks.Tick(s.rows, ids, reply));
    var steps := [ReadClock(r)] + rest;
    assert ([Acquire(r, pod)] + steps)[1..] == steps;
    b := RunBlock(r, pod, steps);
  }

  // ---------------------------------------------------------------- selections and free locks exist

  lemma {:induction false} EarliestFirst(rows: Table, due: set<Id>, n: nat) returns (ids: seq<Id>)
    requires due <= rows.Keys
    ensures Distinct(ids) && |ids| <= n && forall i :: 0 <= i < |ids| ==> ids[i] in due
    ensures forall i, j :: 0 <= i < j < |ids| ==> rows[ids[i]].scheduledAt <= rows[ids[j]].scheduledAt
    ensures forall id <- due :: id !in ids ==>
              |ids| == n && forall i :: 0 <= i < |ids| ==> rows[ids[i]].scheduledAt <= rows[id].scheduledAt
    decreases n
  {
    ids := [];
    if due != {} && n > 0 {
      EarliestExists(rows, due);
      var first :| first in due && forall other <- due :: rows[first].scheduledAt <= rows[other].scheduledAt;
      var rest := EarliestFirst(rows, due - {first}, n - 1);
      ids := [first] + rest;
      assert forall i :: 0 < i < |ids| ==> ids[i] == rest[i - 1];
    }
  }

  lemma SelectionExists(rows: Table, now: int) returns (ids: seq<Id>)
    ensures IsSelection(rows, now, ids)
  {
    var due := set id | id in rows && IsDue(rows, id, now);
    ids := EarliestFirst(rows, due, PROCESS_BATCH_SIZE);
  }

  /** No lock runs out later than 55 s from now. */
  predicate LockBounded(s: State) {
    s.lock.Some? ==> s.lock.value.expiry <= s.clock + LOCK_TTL_MS
  }

  lemma StepKeepsLockBounded(s: State, step: Step)
    requires LockBounded(s) && Enabled(s, step)
    ensures LockBounded(Apply(s, step))
  {
  }

  lemma {:induction false} LockStaysBounded(s: State, steps: seq<Step>)
    requires LockBounded(s) && Valid(s, steps)
    ensures LockBounded(After(s, steps))
    decreases |steps|
  {
    if steps != [] {
      StepKeepsLockBounded(s, steps[0]);
      LockStaysBounded(Apply(s, steps[0]), steps[1..]);
    }
  }

  /**
   No crash, fault or lost release blocks the service for good: from any reachable state, once 55 s pass
   with no new acquisition, a run of any pod can take the lock, select, claim, send and end with any replies.
   */
  lemma ServiceRecovers(s: State, r: RunId, pod: Pod, reply: Id -> Reply) returns (ids: seq<Id>, b: Block)
    requires Reachable(s) && r !in s.runs
    ensures var later := Apply(s, TimePasses(55000));
            && IsSelection(s.rows, later.clock, ids)
            && b.RunBlock? && b.run == r && b.pod == pod && Takes(later, b)
            && After(later, StepsOf(b)).rows == Ticks.Tick(s.rows, ids, reply)
  {
    ProtocolSafety.ReachableInv(s);
    InvQualifies(s);
    var s0, steps :| Reaches(s0, steps, s);
    LockStaysBounded(s0, steps);
    var later := Apply(s, TimePasses(55000));
    ids := SelectionExists(s.rows, later.clock);
    b := EveryTickIsARun(later, r, pod, ids, reply);
  }
}
