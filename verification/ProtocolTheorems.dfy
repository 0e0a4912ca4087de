/**
 The promises of the delivery protocol, stated over every reachable state and every continuation.
 */
module ProtocolTheorems {
  import opened Messages
  import opened Protocol
  import opened ProtocolSafety

  // ---------------------------------------------------------------- claims

  /**
   No message is in the unfinished claims of two runs; every claimed message is the row itself, still
   PROCESSING; and every PROCESSING row is in the unfinished claims of exactly one run.  Nothing is
   assumed about the lock.
   */
  lemma ClaimExclusivity(s: State)
    requires Reachable(s)
    ensures forall r, i, r', j |
              && r in s.runs && 0 <= i < |s.runs[r].claimed|
              && r' in s.runs && 0 <= j < |s.runs[r'].claimed|
              && s.runs[r].claimed[i].id == s.runs[r'].claimed[j].id
              :: r == r' && i == j
    ensures forall r, i | r in s.runs && 0 <= i < |s.runs[r].claimed| ::
              var m := s.runs[r].claimed[i];
              m.id in s.rows && s.rows[m.id] == m && m.status == Processing
    ensures forall id | id in s.rows && s.rows[id].status == Processing ::
              exists r :: r in s.runs && HasId(s.runs[r].claimed, id)
  {
    ReachableInv(s);
    forall r, i, r', j |
      && r in s.runs && 0 <= i < |s.runs[r].claimed|
      && r' in s.runs && 0 <= j < |s.runs[r'].claimed|
      && s.runs[r].claimed[i].id == s.runs[r'].claimed[j].id
      ensures r == r' && i == j
    {
      assert RunOk(s, r) && RunOk(s, r');
      assert Owned(s, r, i) && Owned(s, r', j);
    }
    forall r, i | r in s.runs && 0 <= i < |s.runs[r].claimed|
      ensures var m := s.runs[r].claimed[i];
              m.id in s.rows && s.rows[m.id] == m && m.status == Processing
    {
      assert RunOk(s, r) && Owned(s, r, i);
    }
    forall id | id in s.rows && s.rows[id].status == Processing
      ensures exists r :: r in s.runs && HasId(s.runs[r].claimed, id)
    {
      assert RowOk(s, id);
      assert HasId(s.runs[s.owner[id]].claimed, id);
    }
  }

  /** The row is claimed by a run that will never act on it again. */
  ghost predicate Orphaned(s: State, r: RunId, id: Id) {
    && r in s.runs && !Live(s.runs[r].pc) && HasId(s.runs[r].claimed, id)
    && id in s.rows && s.rows[id].status == Processing
    && id in s.owner && s.owner[id] == r
  }

  /**
   A row left PROCESSING by a run that crashed or was ended by a failed save is never touched again:
   not claimed, not sent, not recovered.
   */
  lemma {:induction false} OrphanForever(s: State, r: RunId, id: Id, steps: seq<Step>)
    requires Reachable(s) && Valid(s, steps) && AllCareful(s, steps)
    requires r in s.runs && !Live(s.runs[r].pc) && HasId(s.runs[r].claimed, id)
    ensures var s' := After(s, steps);
            && Orphaned(s', r, id) && id in s.rows && s'.rows[id] == s.rows[id]
            && TallyOf(s', id) == TallyOf(s, id)
  {
    ReachableInv(s);
    var i :| 0 <= i < |s.runs[r].claimed| && s.runs[r].claimed[i].id == id;
    assert RunOk(s, r) && Owned(s, r, i);
    OrphanKept(s, r, id, steps);
  }

  lemma {:induction false} OrphanKept(s: State, r: RunId, id: Id, steps: seq<Step>)
    requires Inv(s) && Valid(s, steps) && AllCareful(s, steps) && Orphaned(s, r, id)
    ensures SameOrphan(s, After(s, steps), r, id)
    decreases |steps|
  {
    if steps != [] {
      OrphanStep(s, r, id, steps[0]);
      StepKeepsInv(s, steps[0]);
      OrphanKept(Apply(s, steps[0]), r, id, steps[1..]);
    }
  }

  /** The orphan is where it was, with its row and counts. */
  ghost predicate SameOrphan(s: State, s': State, r: RunId, id: Id)
    requires id in s.rows
  {
    Orphaned(s', r, id) && s'.rows[id] == s.rows[id] && TallyOf(s', id) == TallyOf(s, id)
  }

  lemma OrphanStep(s: State, r: RunId, id: Id, step: Step)
    requires Inv(s) && Enabled(s, step) && Careful(s, step) && Orphaned(s, r, id)
    ensures SameOrphan(s, Apply(s, step), r, id)
  {
    if OnHead(step) {
      OrphanOnHead(s, r, id, step);
    } else if Internal(step) {
      InternalEffect(s, step);
      OrphanQuiet(s, Apply(s, step), r, id);
    } else if step.Claim? {
      OrphanClaim(s, r, id, step.run, step.batch);
    } else {
      UserEffect(s, step);
    }
  }

  lemma OrphanOnHead(s: State, r: RunId, id: Id, step: Step)
    requires Inv(s) && Enabled(s, step) && OnHead(step) && Orphaned(s, r, id)
    ensures SameOrphan(s, Apply(s, step), r, id)
  {
    assert RunOk(s, step.run);
    OrphanNotHead(s, r, id, step.run);
    OnHeadEffect(s, step.run, step);
    OrphanBeside(s, Apply(s, step), r, id, step.run);
  }

  lemma OrphanQuiet(s: State, s': State, r: RunId, id: Id)
    requires Quiet(s, s') && Orphaned(s, r, id)
    ensures SameOrphan(s, s', r, id)
  {
    assert s'.runs[r] == s.runs[r] || QuietRun(s, s', r);
  }

  lemma OrphanClaim(s: State, r: RunId, id: Id, r': RunId, batch: seq<Message>)
    requires Inv(s) && Enabled(s, Claim(r', batch)) && Orphaned(s, r, id)
    ensures SameOrphan(s, ClaimStep(s, r', batch), r, id)
  {
  }

  lemma OrphanBeside(s: State, s': State, r: RunId, id: Id, r': RunId)
    requires Orphaned(s, r, id) && id in s.tally && r' in s.runs && s.runs[r'].claimed != []
    requires OnlyHead(s, s', r') && s.runs[r'].claimed[0].id != id && r' != r
    ensures SameOrphan(s, s', r, id)
  {
  }

  lemma OrphanNotHead(s: State, r: RunId, id: Id, r': RunId)
    requires Inv(s) && Orphaned(s, r, id) && r' in s.runs && Live(s.runs[r'].pc) && s.runs[r'].claimed != []
    ensures s.runs[r'].claimed[0].id != id && r' != r && id in s.tally
  {
    HeadIsOwn(s, r');
    assert RowOk(s, id);
  }

  /** After the steps row id is no longer PROCESSING. */
  ghost predicate Leaves(s: State, id: Id, steps: seq<Step>) {
    && Valid(s, steps) && AllCareful(s, steps)
    && id in After(s, steps).rows && After(s, steps).rows[id].status != Processing
  }

  /** A live run with claims can call, hear of an error, or save. */
  lemma LiveRunGoesOn(s: State, r: RunId) returns (step: Step, s': State)
    requires Inv(s) && r in s.runs && Live(s.runs[r].pc) && s.runs[r].claimed != []
    ensures Enabled(s, step) && Careful(s, step) && s' == Apply(s, step) && r in s'.runs
    ensures match s.runs[r].pc
            case Saving(write) =>
              s'.rows == s.rows[write.id := write] && s'.runs[r].claimed == s.runs[r].claimed[1..] && s'.runs[r].pc == Sending
            case Awaiting(_) => s'.runs[r].claimed == s.runs[r].claimed && s'.runs[r].pc.Saving?
            case _ => s'.runs[r].claimed == s.runs[r].claimed && s'.runs[r].pc.Awaiting?
  {
    assert RunOk(s, r);
    if s.runs[r].pc.Saving? {
      step, s' := SaveOk(r), SaveOkStep(s, r);
    } else if s.runs[r].pc.Awaiting? {
      step, s' := ReplyError(r, NotAnObject), ReplyErrorStep(s, r, NotAnObject);
    } else {
      step, s' := Call(r, true), CallStep(s, r, true);
    }
  }

  function Stage(pc: Pc): nat {
    match pc
    case Awaiting(_) => 1
    case Saving(_) => 0
    case _ => 2
  }

  /** A live run can go on with its claims until it has saved this one. */
  lemma {:induction false} LiveClaimCanLeave(s: State, r: RunId, id: Id) returns (steps: seq<Step>)
    requires Inv(s) && r in s.runs && Live(s.runs[r].pc) && HasId(s.runs[r].claimed, id)
    ensures Leaves(s, id, steps)
    decreases |s.runs[r].claimed|, Stage(s.runs[r].pc)
  {
    HeadWrite(s, r);
    var step, s' := LiveRunGoesOn(s, r);
    StepKeepsInv(s, step);
    var claimed, rest := s.runs[r].claimed, [];
    if s.runs[r].pc.Saving? {
      if claimed[0].id != id {
        StillInTail(claimed, id);
        rest := LiveClaimCanLeave(s', r, id);
      }
    } else {
      rest := LiveClaimCanLeave(s', r, id);
    }
    steps := LeavesLater(s, id, step, rest);
  }

  lemma StillInTail(claimed: seq<Message>, id: Id)
    requires HasId(claimed, id) && claimed[0].id != id
    ensures HasId(claimed[1..], id)
  {
    var i :| 0 <= i < |claimed| && claimed[i].id == id;
    assert claimed[1..][i - 1].id == id;
  }

  lemma LeavesLater(s: State, id: Id, step: Step, rest: seq<Step>) returns (steps: seq<Step>)
    requires Enabled(s, step) && Careful(s, step) && Leaves(Apply(s, step), id, rest)
    ensures Leaves(s, id, steps)
  {
    steps := [step] + rest;
    assert steps[1..] == rest;
  }

  /** A PROCESSING row can still leave PROCESSING exactly when a live run has it among its claims. */
  lemma ProcessingLeavesExactly(s: State, id: Id)
    requires Reachable(s) && id in s.rows && s.rows[id].status == Processing
    ensures (exists steps: seq<Step> :: Leaves(s, id, steps))
            <==> exists r :: r in s.runs && Live(s.runs[r].pc) && HasId(s.runs[r].claimed, id)
  {
    ReachableInv(s);
    ClaimExclusivity(s);
    var r :| r in s.runs && HasId(s.runs[r].claimed, id);
    if Live(s.runs[r].pc) {
      var steps := LiveClaimCanLeave(s, r, id);
    } else {
      forall steps: seq<Step> ensures !Leaves(s, id, steps) {
        if Valid(s, steps) && AllCareful(s, steps) {
          OrphanForever(s, r, id, steps);
        }
      }
      forall r' | r' in s.runs && HasId(s.runs[r'].claimed, id) ensures r' == r {
        var i, j :| 0 <= i < |s.runs[r].claimed| && s.runs[r].claimed[i].id == id
                    && 0 <= j < |s.runs[r'].claimed| && s.runs[r'].claimed[j].id == id;
        assert s.runs[r].claimed[i].id == s.runs[r'].claimed[j].id;
      }
    }
  }

  // ---------------------------------------------------------------- sends

  /**
   Accepted sends number at most one more than the failed saves of SENT, and calls carried out by the
   messaging service at most one more than those plus the calls whose reply was lost; the counts are
   exact for every row that is not PROCESSING.
   */
  lemma DeliveryBound(s: State, id: Id)
    requires Reachable(s) && id in s.rows
    ensures id in s.tally
    ensures var t := s.tally[id];
            && t.accepted <= t.lostSaves + 1
            && t.delivered <= t.lostSaves + t.lostReplies + 1
    ensures var t := s.tally[id];
            s.rows[id].status != Processing ==>
              && t.accepted == t.lostSaves + (if s.rows[id].status == Sent then 1 else 0)
              && t.delivered == t.lostSaves + t.lostReplies + (if s.rows[id].status == Sent then 1 else 0)
  {
    ReachableInv(s);
    assert RowOk(s, id);
  }

  /** Send attempts against the persisted retry counter, faults included. */
  lemma AttemptAccounting(s: State, id: Id)
    requires Reachable(s) && id in s.rows
    ensures id in s.tally
    ensures s.tally[id].attempts <= s.rows[id].retryCount + 1 <= 4
    ensures s.rows[id].status in {Pending, Cancelled} ==> s.tally[id].attempts == s.rows[id].retryCount
    ensures s.rows[id].status in {Sent, Failed} ==> s.tally[id].attempts == s.rows[id].retryCount + 1
  {
    ReachableInv(s);
    assert RowOk(s, id);
  }

  /**
   Every send starts at or after the scheduledAt its run's select saw.  It is not early for the row's
   current scheduledAt either when no reschedule committed between the select and the claim; and when one
   did, the claimed scheduledAt is past the select's clock unless a split reschedule was saved too late.
   */
  lemma NeverEarly(s: State, r: RunId, delivered: bool)
    requires Reachable(s) && Enabled(s, Call(r, delivered))
    ensures var run := s.runs[r];
            var m := run.claimed[0];
            && m.id in run.seen && m.id in s.rows && s.rows[m.id] == m && m.id in s.tally
            && run.seen[m.id].scheduledAt <= run.now <= s.clock
            && (run.seen[m.id].reschedules == s.tally[m.id].reschedules ==>
                  m.scheduledAt == run.seen[m.id].scheduledAt && s.clock >= s.rows[m.id].scheduledAt)
            && (run.seen[m.id].stale == s.tally[m.id].stale ==>
                  (m.scheduledAt <= run.now <==> run.seen[m.id].reschedules == s.tally[m.id].reschedules))
            && run.seen[m.id].stale <= s.tally[m.id].stale
  {
    ReachableInv(s);
    assert RunOk(s, r) && Owned(s, r, 0);
    assert RowOk(s, s.runs[r].claimed[0].id);
  }

  ghost predicate NoneStale(s: State) {
    forall id <- s.tally :: s.tally[id].stale == 0
  }

  lemma AtomicKeepsFresh(s: State, step: Step)
    requires NoneStale(s) && Enabled(s, step) && Atomic(step)
    ensures NoneStale(Apply(s, step))
  {
  }

  lemma {:induction false} AtomicStaysFresh(s: State, steps: seq<Step>)
    requires NoneStale(s) && Valid(s, steps) && AllAtomic(steps)
    ensures NoneStale(After(s, steps))
    decreases |steps|
  {
    if steps != [] {
      AtomicKeepsFresh(s, steps[0]);
      AtomicStaysFresh(Apply(s, steps[0]), steps[1..]);
    }
  }

  /**
   With atomic user operations the claimed scheduledAt is past the select's clock if and only if a
   reschedule committed between the select and the claim.
   */
  lemma EarlyExactlyIfRescheduled(s0: State, steps: seq<Step>, r: RunId, delivered: bool)
    requires Initial(s0) && Valid(s0, steps) && AllAtomic(steps) && Enabled(After(s0, steps), Call(r, delivered))
    ensures var s := After(s0, steps);
            var run := s.runs[r];
            var m := run.claimed[0];
            && m.id in run.seen && m.id in s.tally
            && (m.scheduledAt <= run.now <==> run.seen[m.id].reschedules == s.tally[m.id].reschedules)
  {
    var s := After(s0, steps);
    AtomicIsCareful(s0, steps);
    assert Reaches(s0, steps, s);
    NeverEarly(s, r, delivered);
    AtomicStaysFresh(s0, steps);
    assert s.tally[s.runs[r].claimed[0].id].stale == 0;
  }

  lemma ReadExactly(s: State, d: DraftId, id: Id, userId: string, op: UserOp)
    requires UserResult(s, id, userId, op).Ok?
    ensures ReadDraftStep(s, d, id, userId, op)
            == s.(drafts := s.drafts[d := Draft(s.clock, s.rows[id], op, UserResult(s, id, userId, op).value)])
  {
  }

  /** A split operation whose save follows its read at once is the operation in one step. */
  lemma SplitAtOnce(s: State, d: DraftId, id: Id, userId: string, op: UserOp)
    requires Inv(s) && d !in s.drafts && UserResult(s, id, userId, op).Ok?
    ensures var s1 := ReadDraftStep(s, d, id, userId, op);
            d in s1.drafts && Careful(s1, SaveDraft(d)) && SaveDraftStep(s1, d) == UserStep(s, id, userId, op)
  {
    assert RowOk(s, id);
    UserResultIsEdit(s, id, userId, op);
    ReadExactly(s, d, id, userId, op);
    SavedAtOnce(s, d, id, op, UserResult(s, id, userId, op).value);
  }

  lemma SavedAtOnce(s: State, d: DraftId, id: Id, op: UserOp, m: Message)
    requires d !in s.drafts && id in s.rows && s.rows[id].id == id && s.rows[id].status == Pending
    ensures SaveDraftStep(s.(drafts := s.drafts[d := Draft(s.clock, s.rows[id], op, m)]), d) == Commit(s, id, m, op)
  {
    assert s.drafts[d := Draft(s.clock, s.rows[id], op, m)] - {d} == s.drafts;
  }

  /**
   A split reschedule leaves the row in the future exactly when its save comes soon enough after its read:
   the new time was in the future then, and within a year.
   */
  lemma RescheduledInTimeExactly(s: State, d: DraftId)
    requires Reachable(s) && Enabled(s, SaveDraft(d)) && Careful(s, SaveDraft(d)) && Reschedules(s.drafts[d].op)
    ensures var draft, s' := s.drafts[d], Apply(s, SaveDraft(d));
            var id, window := draft.seen.id, draft.write.scheduledAt - draft.readAt;
            && 0 < window <= 31536000000 && draft.readAt <= s.clock
            && id in s'.rows && id in s'.tally && s'.rows[id] == draft.write && s'.rows[id].status == Pending
            && (s'.rows[id].scheduledAt > s'.clock <==> s.clock - draft.readAt < window)
            && s'.tally[id].stale == TallyOf(s, id).stale + (if s.clock - draft.readAt < window then 0 else 1)
  {
    ReachableInv(s);
    assert DraftOk(s, s.drafts[d]);
  }

  // ---------------------------------------------------------------- from the request to the send

  /** Row id is scheduled for t unless a reschedule of it committed. */
  ghost predicate OnSchedule(s: State, id: Id, t: int) {
    id in s.rows && id in s.tally && (s.tally[id].reschedules == 0 ==> s.rows[id].scheduledAt == t)
  }

  lemma StepKeepsSchedule(s: State, step: Step, id: Id, t: int)
    requires Inv(s) && Enabled(s, step) && Careful(s, step) && OnSchedule(s, id, t)
    ensures OnSchedule(Apply(s, step), id, t)
  {
    if OnHead(step) {
      HeadKeepsSchedule(s, step, id, t);
    } else if Internal(step) {
      InternalEffect(s, step);
    } else if OfUser(step) {
      UserKeepsSchedule(s, step, id, t);
    } else {
      ClaimKeepsSchedule(s, step.run, step.batch, id, t);
    }
  }

  lemma HeadKeepsSchedule(s: State, step: Step, id: Id, t: int)
    requires Inv(s) && Enabled(s, step) && OnHead(step) && OnSchedule(s, id, t)
    ensures OnSchedule(Apply(s, step), id, t)
  {
    assert RunOk(s, step.run);
    OnHeadEffect(s, step.run, step);
    HeadOnSchedule(s, Apply(s, step), step.run, id, t);
  }

  lemma HeadOnSchedule(s: State, s': State, r: RunId, id: Id, t: int)
    requires r in s.runs && s.runs[r].claimed != [] && OnlyHead(s, s', r) && OnSchedule(s, id, t)
    ensures OnSchedule(s', id, t)
  {
  }

  lemma ClaimKeepsSchedule(s: State, r: RunId, batch: seq<Message>, id: Id, t: int)
    requires Enabled(s, Claim(r, batch)) && OnSchedule(s, id, t)
    ensures OnSchedule(ClaimStep(s, r, batch), id, t)
  {
  }

  lemma UserKeepsSchedule(s: State, step: Step, id: Id, t: int)
    requires Inv(s) && Enabled(s, step) && Careful(s, step) && OfUser(step) && OnSchedule(s, id, t)
    ensures OnSchedule(Apply(s, step), id, t)
  {
    match step
    case SaveDraft(d) => SaveOnSchedule(s, d, id, t);
    case User(x, userId, op) => UserOnSchedule(s, x, userId, op, id, t);
    case Create(x, userId, dto) => assert x != id;
    case ReadDraft(_, _, _, _) =>
  }

  lemma SaveOnSchedule(s: State, d: DraftId, id: Id, t: int)
    requires Inv(s) && d in s.drafts && Careful(s, SaveDraft(d)) && OnSchedule(s, id, t)
    ensures OnSchedule(SaveDraftStep(s, d), id, t)
  {
    var draft := s.drafts[d];
    assert DraftOk(s, draft);
    CommitOnSchedule(s, draft.seen.id, draft.op, draft.write, id, t);
  }

  lemma UserOnSchedule(s: State, x: Id, userId: string, op: UserOp, id: Id, t: int)
    requires Inv(s) && OnSchedule(s, id, t)
    ensures OnSchedule(UserStep(s, x, userId, op), id, t)
  {
    if UserResult(s, x, userId, op).Ok? {
      assert RowOk(s, x);
      UserResultIsEdit(s, x, userId, op);
      CommitOnSchedule(s, x, op, UserResult(s, x, userId, op).value, id, t);
    }
  }

  lemma CommitOnSchedule(s: State, x: Id, op: UserOp, write: Message, id: Id, t: int)
    requires x in s.rows && IsEdit(s.rows[x], op, write) && OnSchedule(s, id, t)
    ensures OnSchedule(Commit(s, x, write, op), id, t)
  {
  }

  lemma {:induction false} RunKeepsSchedule(s: State, steps: seq<Step>, id: Id, t: int)
    requires Inv(s) && Valid(s, steps) && AllCareful(s, steps) && OnSchedule(s, id, t)
    ensures OnSchedule(After(s, steps), id, t) && Inv(After(s, steps))
    decreases |steps|
  {
    if steps != [] {
      StepKeepsSchedule(s, steps[0], id, t);
      StepKeepsInv(s, steps[0]);
      RunKeepsSchedule(Apply(s, steps[0]), steps[1..], id, t);
    }
  }

  /**
   A message whose creation was accepted is never sent before the time asked for, in any continuation, by any
   run, until a reschedule of it commits.
   */
  lemma NeverBeforeRequested(s: State, id: Id, userId: string, dto: CreateDto, steps: seq<Step>, r: RunId, delivered: bool)
    requires Reachable(s) && Enabled(s, Create(id, userId, dto)) && s.clock < dto.scheduledAt <= s.clock + 31536000000
    requires var s1 := Apply(s, Create(id, userId, dto));
             Valid(s1, steps) && AllCareful(s1, steps)
    requires var s2 := After(Apply(s, Create(id, userId, dto)), steps);
             Enabled(s2, Call(r, delivered)) && s2.runs[r].claimed[0].id == id
    ensures var s2 := After(Apply(s, Create(id, userId, dto)), steps);
            id in s2.tally && (s2.tally[id].reschedules == 0 ==> s2.clock >= dto.scheduledAt)
  {
    ReachableInv(s);
    CreatedExactly(id, userId, dto, s.clock);
    var s1 := CreateStep(s, id, userId, dto);
    StepKeepsInv(s, Create(id, userId, dto));
    RunKeepsSchedule(s1, steps, id, dto.scheduledAt);
    var s2 := After(s1, steps);
    assert RunOk(s2, r) && Owned(s2, r, 0);
    assert RowOk(s2, id);
  }

  // ---------------------------------------------------------------- the status machine

  predicate Terminal(m: Message) {
    m.status == Sent || m.status == Failed || m.status == Cancelled
  }

  /** What one step may do to a row. */
  predicate Edge(m: Message, m': Message) {
    match m.status
    case Pending =>
      || m' == m.(scheduledAt := m'.scheduledAt, content := m'.content, metadata := m'.metadata)
      || m' == m.(status := Cancelled)
      || m' == m.(status := Processing)
    case Processing =>
      || m' == m
      || m' == m.(status := Sent)
      || m' == m.(status := Failed)
      || (m.retryCount <= 2 && m' == m.(status := Pending, retryCount := m.retryCount + 1))
    case _ => m' == m
  }

  lemma StepFollowsEdges(s: State, step: Step)
    requires Inv(s) && Enabled(s, step) && Careful(s, step)
    ensures s.rows.Keys <= Apply(s, step).rows.Keys
    ensures forall id <- s.rows :: Edge(s.rows[id], Apply(s, step).rows[id])
  {
    if OnHead(step) {
      HeadEdges(s, step.run, step);
    } else if Internal(step) {
      InternalEffect(s, step);
    } else if !step.Claim? {
      UserEffect(s, step);
    }
  }

  lemma HeadEdges(s: State, r: RunId, step: Step)
    requires Inv(s) && Enabled(s, step) && OnHead(step) && step.run == r
    ensures s.rows.Keys <= Apply(s, step).rows.Keys
    ensures forall id <- s.rows :: Edge(s.rows[id], Apply(s, step).rows[id])
  {
    HeadIsOwn(s, r);
    HeadWrite(s, r);
    if !step.SaveOk? {
      var pc, t := HeadForm(s, r, step);
    }
  }

  /** What an edge cannot change. */
  predicate Preserved(m: Message, m': Message) {
    && m'.userId == m.userId && m.retryCount <= m'.retryCount && (Terminal(m) ==> m' == m)
    && (m.status != Pending ==> m'.scheduledAt == m.scheduledAt)
  }

  lemma StepPreserves(s: State, step: Step, id: Id)
    requires Inv(s) && Enabled(s, step) && Careful(s, step) && id in s.rows
    ensures id in Apply(s, step).rows && Preserved(s.rows[id], Apply(s, step).rows[id])
  {
    StepFollowsEdges(s, step);
    EdgePreserves(s.rows[id], Apply(s, step).rows[id]);
  }

  lemma EdgePreserves(m: Message, m': Message)
    requires Edge(m, m')
    ensures Preserved(m, m')
  {
  }

  /**
   Over any continuation: no row is lost, SENT, FAILED and CANCELLED rows never change again in any
   column, the retry counter never decreases, and a row's scheduledAt can change only through PENDING.
   */
  lemma {:induction false} RowsConserved(s: State, steps: seq<Step>, id: Id)
    requires Reachable(s) && Valid(s, steps) && AllCareful(s, steps) && id in s.rows
    ensures var s' := After(s, steps);
            && id in s'.rows
            && s'.rows[id].id == id && s'.rows[id].userId == s.rows[id].userId
            && s.rows[id].retryCount <= s'.rows[id].retryCount <= 3
            && (Terminal(s.rows[id]) ==> s'.rows[id] == s.rows[id])
    ensures (forall i :: 0 <= i <= |steps| ==> PrefixStatus(s, steps, i, id) != Pending) ==>
              After(s, steps).rows[id].scheduledAt == s.rows[id].scheduledAt
  {
    ReachableInv(s);
    Conserved(s, steps, id);
    RunKeepsInv(s, steps);
    assert RowOk(After(s, steps), id);
    ScheduledAtKept(s, steps, id);
  }

  lemma {:induction false} Conserved(s: State, steps: seq<Step>, id: Id)
    requires Inv(s) && Valid(s, steps) && AllCareful(s, steps) && id in s.rows
    ensures var s' := After(s, steps);
            && id in s'.rows && s'.rows[id].userId == s.rows[id].userId
            && s.rows[id].retryCount <= s'.rows[id].retryCount
            && (Terminal(s.rows[id]) ==> s'.rows[id] == s.rows[id])
    decreases |steps|
  {
    if steps != [] {
      StepPreserves(s, steps[0], id);
      StepKeepsInv(s, steps[0]);
      Conserved(Apply(s, steps[0]), steps[1..], id);
    }
  }

  /** The status of row id after the first i steps (PENDING where there is no such row). */
  ghost function PrefixStatus(s: State, steps: seq<Step>, i: nat, id: Id): Status
    requires Valid(s, steps) && i <= |steps|
    decreases i
  {
    if i == 0 then (if id in s.rows then s.rows[id].status else Pending)
    else PrefixStatus(Apply(s, steps[0]), steps[1..], i - 1, id)
  }

  lemma {:induction false} ScheduledAtKept(s: State, steps: seq<Step>, id: Id)
    requires Inv(s) && Valid(s, steps) && AllCareful(s, steps) && id in s.rows
    requires id in After(s, steps).rows
    ensures (forall i :: 0 <= i <= |steps| ==> PrefixStatus(s, steps, i, id) != Pending) ==>
              After(s, steps).rows[id].scheduledAt == s.rows[id].scheduledAt
    decreases |steps|
  {
    if steps != [] && forall i :: 0 <= i <= |steps| ==> PrefixStatus(s, steps, i, id) != Pending {
      var s1 := Apply(s, steps[0]);
      StepPreserves(s, steps[0], id);
      StepKeepsInv(s, steps[0]);
      assert PrefixStatus(s, steps, 0, id) != Pending;
      forall i | 0 <= i <= |steps[1..]| ensures PrefixStatus(s1, steps[1..], i, id) != Pending {
        assert PrefixStatus(s, steps, i + 1, id) != Pending;
      }
      ScheduledAtKept(s1, steps[1..], id);
    }
  }

  /** The run a step belongs to, if any. */
  predicate IsStepOf(step: Step, r: RunId) {
    !step.TimePasses? && Atomic(step) && !step.Create? && !step.User? && step.run == r
  }

  lemma {:induction false} OthersLeaveRun(s: State, steps: seq<Step>, r: RunId)
    requires Inv(s) && Valid(s, steps) && AllCareful(s, steps) && r in s.runs
    requires forall i :: 0 <= i < |steps| ==> !IsStepOf(steps[i], r)
    ensures r in After(s, steps).runs && After(s, steps).runs[r] == s.runs[r]
    ensures Inv(After(s, steps))
    decreases |steps|
  {
    if steps != [] {
      assert !IsStepOf(steps[0], r);
      OtherLeavesRun(s, steps[0], r);
      StepKeepsInv(s, steps[0]);
      OthersLeaveRun(Apply(s, steps[0]), steps[1..], r);
    }
  }

  lemma OtherLeavesRun(s: State, step: Step, r: RunId)
    requires Enabled(s, step) && r in s.runs && !IsStepOf(step, r)
    ensures r in Apply(s, step).runs && Apply(s, step).runs[r] == s.runs[r]
  {
    if OnHead(step) {
      assert step.run != r;
    }
  }

  /**
   A rejected send, whatever the other runs and the users do before the run gets to save, fails the
   row exactly when the error is permanent or three retries are used up; otherwise the row is PENDING
   again with one more retry counted.
   */
  lemma RejectionOutcome(s: State, r: RunId, e: Caught, others: seq<Step>)
    requires Reachable(s) && Enabled(s, ReplyError(r, e))
    requires Valid(Apply(s, ReplyError(r, e)), others) && AllCareful(Apply(s, ReplyError(r, e)), others)
    requires forall i :: 0 <= i < |others| ==> !IsStepOf(others[i], r)
    ensures var m := s.runs[r].claimed[0];
            var s1 := After(Apply(s, ReplyError(r, e)), others);
            && m.id in s.rows && s.rows[m.id] == m && m.status == Processing
            && Enabled(s1, SaveOk(r)) && m.id in Apply(s1, SaveOk(r)).rows
            && var row := Apply(s1, SaveOk(r)).rows[m.id];
               && (row.status == Failed <==> !IsTransientError(e) || m.retryCount == 3)
               && (row.status != Failed ==> row == m.(status := Pending, retryCount := m.retryCount + 1))
               && (row.status == Failed ==> row == m.(status := Failed))
  {
    ReachableInv(s);
    HeadIsOwn(s, r);
    HeadWrite(s, r);
    RejectionSaved(s, r, e, others);
    AfterErrorExactly(s.runs[r].claimed[0], e);
  }

  lemma RejectionSaved(s: State, r: RunId, e: Caught, others: seq<Step>)
    requires Inv(s) && Enabled(s, ReplyError(r, e))
    requires Valid(Apply(s, ReplyError(r, e)), others) && AllCareful(Apply(s, ReplyError(r, e)), others)
    requires forall i :: 0 <= i < |others| ==> !IsStepOf(others[i], r)
    ensures var m, s1 := s.runs[r].claimed[0], After(Apply(s, ReplyError(r, e)), others);
            && Enabled(s1, SaveOk(r)) && m.id in Apply(s1, SaveOk(r)).rows
            && Apply(s1, SaveOk(r)).rows[m.id] == AfterError(m, e)
  {
    StepKeepsInv(s, ReplyError(r, e));
    var s0 := Rejected(s, r, e);
    OthersLeaveRun(s0, others, r);
    SavedRow(After(s0, others), r, AfterError(s.runs[r].claimed[0], e));
  }

  lemma AfterErrorExactly(m: Message, e: Caught)
    requires m.status == Processing && m.retryCount <= RETRY_LIMIT
    ensures var row := AfterError(m, e);
            && row.id == m.id
            && (row.status == Failed <==> !IsTransientError(e) || m.retryCount == 3)
            && (row.status != Failed ==> row == m.(status := Pending, retryCount := m.retryCount + 1))
            && (row.status == Failed ==> row == m.(status := Failed))
  {
  }

  lemma Rejected(s: State, r: RunId, e: Caught) returns (s': State)
    requires Enabled(s, ReplyError(r, e))
    ensures s' == Apply(s, ReplyError(r, e))
    ensures r in s'.runs && s'.runs[r].pc == Saving(AfterError(s.runs[r].claimed[0], e)) && s'.runs[r].claimed != []
  {
    s' := ReplyErrorStep(s, r, e);
  }

  lemma SavedRow(s: State, r: RunId, write: Message)
    requires r in s.runs && s.runs[r].pc == Saving(write) && s.runs[r].claimed != []
    ensures Enabled(s, SaveOk(r)) && write.id in Apply(s, SaveOk(r)).rows
    ensures Apply(s, SaveOk(r)).rows[write.id] == write
  {
  }
}
