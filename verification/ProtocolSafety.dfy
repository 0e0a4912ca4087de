/**
 What holds in every reachable state of the delivery protocol, for any number of overlapping runs,
 expired leases, crashes and failed saves.
 */
module ProtocolSafety {
  import opened Messages
  import opened Protocol

  // ---------------------------------------------------------------- the invariant

  /** The run is past its call for the first claimed message. */
  predicate InCall(pc: Pc) {
    pc.Awaiting? || pc.Saving?
  }

  /** The run will still act on its claimed messages. */
  predicate Live(pc: Pc) {
    !pc.Releasing? && !pc.Ended?
  }

  predicate HoldsAcceptance(pc: Pc) {
    pc.Saving? && pc.write.status == Sent
  }

  predicate HoldsDelivery(pc: Pc) {
    (pc.Awaiting? && pc.delivered) || HoldsAcceptance(pc)
  }

  /** What a run may be about to save for a claimed message. */
  predicate IsWrite(m: Message, write: Message) {
    || write == m.(status := Sent)
    || write == m.(status := Failed)
    || (m.retryCount < RETRY_LIMIT && write == m.(status := Pending, retryCount := m.retryCount + 1))
  }

  /** The i-th unfinished claim of r is the row itself, still PROCESSING and owned by r. */
  ghost predicate Owned(s: State, r: RunId, i: nat)
    requires r in s.runs && i < |s.runs[r].claimed|
  {
    var m := s.runs[r].claimed[i];
    && m.id in s.rows && s.rows[m.id] == m && m.status == Processing
    && m.id in s.owner && s.owner[m.id] == r
    && SeenOk(s.runs[r], m, TallyOf(s, m.id))
  }

  /**
   A claimed row was selected when due; while no reschedule came since it is as it was, and after one it is
   past the select's clock, unless a reschedule since was to a time already reached.
   */
  predicate SeenOk(run: Run, m: Message, t: Tally) {
    && m.id in run.seen
    && run.seen[m.id].scheduledAt <= run.now
    && run.seen[m.id].reschedules <= t.reschedules
    && run.seen[m.id].stale <= t.stale
    && (run.seen[m.id].reschedules != t.reschedules && run.seen[m.id].stale == t.stale ==> m.scheduledAt > run.now)
    && (run.seen[m.id].reschedules == t.reschedules ==> m.scheduledAt == run.seen[m.id].scheduledAt)
  }

  /** While r works on its claims, the tally of each is known exactly. */
  ghost predicate Counted(s: State, r: RunId, i: nat)
    requires r in s.runs && i < |s.runs[r].claimed|
  {
    var run := s.runs[r];
    var t := TallyOf(s, run.claimed[i].id);
    Live(run.pc) ==>
      && t.attempts == run.claimed[i].retryCount + (if i == 0 && InCall(run.pc) then 1 else 0)
      && t.accepted == t.lostSaves + (if i == 0 && HoldsAcceptance(run.pc) then 1 else 0)
      && t.delivered == t.lostSaves + t.lostReplies + (if i == 0 && HoldsDelivery(run.pc) then 1 else 0)
  }

  ghost predicate CandidatesOk(s: State, run: Run) {
    run.pc.Claiming? ==>
      && run.pc.now == run.now
      && forall id <- run.pc.candidates :: id in s.rows && SeenOk(run, s.rows[id], TallyOf(s, id))
  }

  ghost predicate RunOk(s: State, r: RunId)
    requires r in s.runs
  {
    var run := s.runs[r];
    && run.now <= s.clock
    && (run.pc.Started? || run.pc.Selecting? || run.pc.Claiming? ==> run.claimed == [])
    && (run.pc.Selecting? ==> run.pc.now == run.now)
    && CandidatesOk(s, run)
    && (InCall(run.pc) ==> run.claimed != [])
    && (run.pc.Saving? ==> IsWrite(run.claimed[0], run.pc.write))
    && (forall i, j :: 0 <= i < j < |run.claimed| ==> run.claimed[i].id != run.claimed[j].id)
    && (forall i :: 0 <= i < |run.claimed| ==> Owned(s, r, i))
    && (forall i :: 0 <= i < |run.claimed| ==> Counted(s, r, i))
  }

  /** The tally of a row in terms of its status and retry count. */
  predicate Accounts(m: Message, t: Tally) {
    && m.retryCount <= RETRY_LIMIT
    && match m.status
       case Pending => t.attempts == m.retryCount && t.accepted == t.lostSaves
                       && t.delivered == t.lostSaves + t.lostReplies
       case Cancelled => t.attempts == m.retryCount && t.accepted == t.lostSaves
                         && t.delivered == t.lostSaves + t.lostReplies
       case Sent => t.attempts == m.retryCount + 1 && t.accepted == t.lostSaves + 1
                    && t.delivered == t.lostSaves + t.lostReplies + 1
       case Failed => t.attempts == m.retryCount + 1 && t.accepted == t.lostSaves
                      && t.delivered == t.lostSaves + t.lostReplies
       case Processing => m.retryCount <= t.attempts <= m.retryCount + 1
                          && t.lostSaves <= t.accepted <= t.lostSaves + 1
                          && t.lostSaves + t.lostReplies <= t.delivered <= t.lostSaves + t.lostReplies + 1
  }

  ghost predicate RowOk(s: State, id: Id)
    requires id in s.rows
  {
    && s.rows[id].id == id
    && id in s.tally
    && Accounts(s.rows[id], s.tally[id])
    && (s.rows[id].status == Processing ==>
          id in s.owner && s.owner[id] in s.runs && HasId(s.runs[s.owner[id]].claimed, id))
  }

  /** The write is an edit of the row read, and a new time was in the future and within a year of the read. */
  predicate DraftOk(s: State, draft: Draft) {
    && IsEdit(draft.seen, draft.op, draft.write) && draft.readAt <= s.clock
    && (Reschedules(draft.op) ==> AcceptableTime(draft.write.scheduledAt, draft.readAt))
  }

  ghost predicate Inv(s: State) {
    && (forall r <- s.runs :: RunOk(s, r))
    && (forall id <- s.rows :: RowOk(s, id))
    && (forall d <- s.drafts :: DraftOk(s, s.drafts[d]))
  }

  // ---------------------------------------------------------------- every step keeps it

  /** A step that changes neither rows, owners, tallies nor the claims of a run keeps that run's clauses. */
  lemma RunFrame(s: State, s': State, r: RunId)
    requires r in s.runs && RunOk(s, r)
    requires r in s'.runs && s'.runs[r] == s.runs[r]
    requires s.clock <= s'.clock
    requires forall m <- s.runs[r].claimed :: m.id in s.rows && m.id in s'.rows && s'.rows[m.id] == s.rows[m.id]
                                              && m.id in s'.owner && s'.owner[m.id] == r
                                              && TallyOf(s', m.id) == TallyOf(s, m.id)
    requires CandidatesOk(s', s.runs[r])
    ensures RunOk(s', r)
  {
    var run := s.runs[r];
    forall i | 0 <= i < |run.claimed| ensures Owned(s', r, i) && Counted(s', r, i) {
      assert Owned(s, r, i) && Counted(s, r, i);
      assert run.claimed[i] in run.claimed;
    }
  }

  /** Steps of one run that leave the table and the history alone. */
  predicate Internal(step: Step) {
    || step.Acquire? || step.ReadClock? || step.Select? || step.SelectFails? || step.ClaimFails?
    || step.FinishLoop? || step.Release? || step.Crash? || step.TimePasses?
  }

  lemma InternalKeeps(s: State, step: Step)
    requires Inv(s) && Enabled(s, step) && Internal(step)
    ensures Inv(Apply(s, step))
  {
    InternalEffect(s, step);
    QuietKeeps(s, Apply(s, step));
  }

  /** A run that is between messages, or through, and has at most kept the claims it had. */
  ghost predicate QuietRun(s: State, s': State, r: RunId)
    requires r in s'.runs
  {
    var run' := s'.runs[r];
    && run'.now <= s'.clock
    && CandidatesOk(s', run')
    && !InCall(run'.pc)
    && (run'.pc.Selecting? ==> run'.pc.now == run'.now)
    && (Live(run'.pc) ==> run'.claimed == [])
    && run'.claimed == (if r in s.runs then s.runs[r].claimed else [])
    && (run'.claimed != [] ==> run'.seen == s.runs[r].seen && run'.now == s.runs[r].now)
  }

  ghost predicate Quiet(s: State, s': State) {
    && SameHistory(s, s')
    && s.clock <= s'.clock
    && s'.drafts == s.drafts
    && s.runs.Keys <= s'.runs.Keys
    && forall r <- s'.runs :: (r in s.runs && s'.runs[r] == s.runs[r]) || QuietRun(s, s', r)
  }

  lemma InternalEffect(s: State, step: Step)
    requires Inv(s) && Enabled(s, step) && Internal(step)
    ensures Quiet(s, Apply(s, step))
  {
    if step.Select? {
      SelectEffect(s, step.run, step.ids);
    } else if step.Acquire? {
      AcquireEffect(s, step.run, step.pod);
    } else if step.Release? {
      ReleaseEffect(s, step.run, step.redisUp);
    } else if step.ReadClock? {
      ReadClockEffect(s, step.run);
    } else if !step.TimePasses? {
      assert Apply(s, step) == WithPc(s, step.run, if step.Crash? then Ended else Releasing);
      ThroughEffect(s, step.run, if step.Crash? then Ended else Releasing);
    }
  }

  lemma ReleaseEffect(s: State, r: RunId, redisUp: bool)
    requires Inv(s) && r in s.runs
    ensures Quiet(s, ReleaseStep(s, r, redisUp))
  {
    assert RunOk(s, r);
    OneRunQuiet(s, ReleaseStep(s, r, redisUp), r, ReleaseStep(s, r, redisUp).runs[r]);
  }

  lemma ReadClockEffect(s: State, r: RunId)
    requires Inv(s) && Enabled(s, ReadClock(r))
    ensures Quiet(s, Apply(s, ReadClock(r)))
  {
    assert RunOk(s, r);
    OneRunQuiet(s, Apply(s, ReadClock(r)), r, Apply(s, ReadClock(r)).runs[r]);
  }

  lemma ThroughEffect(s: State, r: RunId, pc: Pc)
    requires Inv(s) && r in s.runs && !Live(pc)
    ensures Quiet(s, WithPc(s, r, pc))
  {
    assert RunOk(s, r);
    OneRunQuiet(s, WithPc(s, r, pc), r, WithPc(s, r, pc).runs[r]);
  }

  lemma SelectEffect(s: State, r: RunId, ids: seq<Id>)
    requires Inv(s) && Enabled(s, Select(r, ids))
    ensures Quiet(s, SelectStep(s, r, ids))
  {
    var s' := SelectStep(s, r, ids);
    SelectSees(s, r, ids);
    assert RunOk(s, r);
    OneRunQuiet(s, s', r, s'.runs[r]);
  }

  lemma AcquireEffect(s: State, r: RunId, pod: Pod)
    requires r !in s.runs
    ensures Quiet(s, AcquireLock(s, r, pod))
  {
  }

  lemma OneRunQuiet(s: State, s': State, r: RunId, run': Run)
    requires SameHistory(s, s') && s'.clock == s.clock && s'.drafts == s.drafts
    requires s'.runs == s.runs[r := run']
    requires QuietRun(s, s', r)
    ensures Quiet(s, s')
  {
  }

  lemma QuietKeeps(s: State, s': State)
    requires Inv(s) && Quiet(s, s')
    ensures Inv(s')
  {
    forall r <- s'.runs ensures RunOk(s', r) {
      if r in s.runs && s'.runs[r] == s.runs[r] {
        IdleRun(s, s', r);
      } else {
        QuietSelf(s, s', r);
      }
    }
    forall id <- s'.rows ensures RowOk(s', id) {
      QuietRow(s, s', id);
    }
  }

  lemma QuietSelf(s: State, s': State, r: RunId)
    requires Inv(s) && Quiet(s, s') && r in s'.runs && QuietRun(s, s', r)
    ensures RunOk(s', r)
  {
    var run' := s'.runs[r];
    forall i | 0 <= i < |run'.claimed| ensures Owned(s', r, i) && Counted(s', r, i) {
      assert RunOk(s, r) && Owned(s, r, i);
    }
    if run'.claimed != [] {
      assert RunOk(s, r);
    }
  }

  lemma QuietRow(s: State, s': State, id: Id)
    requires Inv(s) && Quiet(s, s') && id in s.rows
    ensures RowOk(s', id)
  {
    assert RowOk(s, id);
    if s.rows[id].status == Processing {
      var r := s.owner[id];
      assert RunOk(s, r);
      assert (s'.runs[r] == s.runs[r]) || QuietRun(s, s', r);
    }
  }

  predicate SameHistory(s: State, s': State) {
    s'.rows == s.rows && s'.owner == s.owner && s'.tally == s.tally
  }

  lemma IdleRun(s: State, s': State, r: RunId)
    requires r in s.runs && RunOk(s, r)
    requires SameHistory(s, s') && s.clock <= s'.clock
    requires r in s'.runs && s'.runs[r] == s.runs[r]
    ensures RunOk(s', r)
  {
    forall m <- s.runs[r].claimed ensures m.id in s.rows && m.id in s.owner && s.owner[m.id] == r {
      var i :| 0 <= i < |s.runs[r].claimed| && s.runs[r].claimed[i] == m;
      assert Owned(s, r, i);
    }
    RunFrame(s, s', r);
  }

  lemma SelectSees(s: State, r: RunId, ids: seq<Id>)
    requires Inv(s) && Enabled(s, Select(r, ids))
    ensures CandidatesOk(s, SelectStep(s, r, ids).runs[r])
  {
    assert RunOk(s, r);
    forall id <- ids ensures id in s.rows && IsDue(s.rows, id, s.runs[r].now) {
      var i :| 0 <= i < |ids| && ids[i] == id;
      assert IsDue(s.rows, ids[i], s.runs[r].pc.now);
    }
    forall id <- ids ensures s.rows[id].id == id {
      assert RowOk(s, id);
    }
  }

  lemma ClaimKeeps(s: State, r: RunId, batch: seq<Message>)
    requires Inv(s) && Enabled(s, Claim(r, batch))
    ensures Inv(ClaimStep(s, r, batch))
  {
    var s' := ClaimStep(s, r, batch);
    forall r' <- s'.runs ensures RunOk(s', r') {
      if r' != r {
        ClaimKeepsOther(s, r, batch, r');
      } else {
        ClaimKeepsSelf(s, r, batch);
      }
    }
    forall id <- s'.rows ensures RowOk(s', id) {
      ClaimKeepsRow(s, r, batch, id);
    }
  }

  lemma ClaimKeepsOther(s: State, r: RunId, batch: seq<Message>, r': RunId)
    requires Inv(s) && Enabled(s, Claim(r, batch)) && r' in s.runs && r' != r
    ensures RunOk(ClaimStep(s, r, batch), r')
  {
    var s' := ClaimStep(s, r, batch);
    assert RunOk(s, r');
    forall m <- s.runs[r'].claimed
      ensures m.id in s.rows && m.id in s.owner && s.owner[m.id] == r' && s'.owner[m.id] == r' && s'.rows[m.id] == s.rows[m.id]
    {
      var i :| 0 <= i < |s.runs[r'].claimed| && s.runs[r'].claimed[i] == m;
      assert Owned(s, r', i);
    }
    RunFrame(s, s', r');
  }

  lemma ClaimKeepsSelf(s: State, r: RunId, batch: seq<Message>)
    requires Inv(s) && Enabled(s, Claim(r, batch))
    ensures RunOk(ClaimStep(s, r, batch), r)
  {
    var s' := ClaimStep(s, r, batch);
    assert RunOk(s, r);
    forall i | 0 <= i < |batch| ensures Owned(s', r, i) && Counted(s', r, i) {
      assert Claimable(s.rows, batch[i].id, s.runs[r].pc.candidates);
      assert RowOk(s, batch[i].id);
    }
  }

  lemma ClaimKeepsRow(s: State, r: RunId, batch: seq<Message>, id: Id)
    requires Inv(s) && Enabled(s, Claim(r, batch)) && id in s.rows
    ensures RowOk(ClaimStep(s, r, batch), id)
  {
    assert RowOk(s, id) && RunOk(s, r);
  }

  /** Steps that work on the first claimed message of run r. */
  predicate OnHead(step: Step) {
    step.Call? || step.ReplyOk? || step.ReplyError? || step.SaveOk? || step.SaveFails?
  }

  /** The first claimed message of r is claimed by no other run. */
  lemma HeadIsOwn(s: State, r: RunId)
    requires Inv(s) && r in s.runs && s.runs[r].claimed != []
    ensures var id := s.runs[r].claimed[0].id;
            && id in s.rows && s.rows[id] == s.runs[r].claimed[0] && id in s.tally
            && id in s.owner && s.owner[id] == r
    ensures forall r', i | r' in s.runs && 0 <= i < |s.runs[r'].claimed|
                           && s.runs[r'].claimed[i].id == s.runs[r].claimed[0].id :: r' == r && i == 0
  {
    assert RunOk(s, r) && Owned(s, r, 0);
    assert RowOk(s, s.runs[r].claimed[0].id);
    forall r', i | r' in s.runs && 0 <= i < |s.runs[r'].claimed|
                   && s.runs[r'].claimed[i].id == s.runs[r].claimed[0].id
      ensures r' == r && i == 0
    {
      assert RunOk(s, r') && Owned(s, r', i);
    }
  }

  /** Only run r, the row and the tally of its first claimed message may change, and no other claim. */
  ghost predicate OnlyHead(s: State, s': State, r: RunId)
    requires r in s.runs && s.runs[r].claimed != []
  {
    var id := s.runs[r].claimed[0].id;
    && s'.clock == s.clock && s'.owner == s.owner && s'.drafts == s.drafts
    && r in s'.runs && s'.runs == s.runs[r := s'.runs[r]]
    && s'.rows.Keys == s.rows.Keys && (forall x <- s.rows :: x != id ==> s'.rows[x] == s.rows[x])
    && s.tally.Keys <= s'.tally.Keys && (forall x <- s.tally :: x != id ==> s'.tally[x] == s.tally[x])
    && (forall x <- s.rows :: s'.rows[x].id == s.rows[x].id && s'.rows[x].scheduledAt == s.rows[x].scheduledAt
                              && TallyOf(s', x).reschedules == TallyOf(s, x).reschedules
                              && TallyOf(s', x).stale == TallyOf(s, x).stale)
    && s'.runs[r].seen == s.runs[r].seen && s'.runs[r].now == s.runs[r].now
    && ((s'.runs[r].claimed == s.runs[r].claimed && s'.rows == s.rows)
        || (s'.runs[r].claimed == s.runs[r].claimed[1..] && s'.runs[r].pc == Sending))
  }

  /** The transitions of a run at its first claimed message m, apart from its save, with its history. */
  predicate HeadMove(m: Message, pc: Pc, t: Tally, pc': Pc, t': Tally) {
    match pc
    case Sending => pc'.Awaiting? && t' == t.(attempts := t.attempts + 1, delivered := t.delivered + (if pc'.delivered then 1 else 0))
    case Awaiting(delivered) =>
      && pc'.Saving? && IsWrite(m, pc'.write)
      && if pc'.write.status == Sent then delivered && t' == t.(accepted := t.accepted + 1)
         else t' == t.(lostReplies := t.lostReplies + (if delivered then 1 else 0))
    case Saving(write) =>
      if write.status == Sent then
        pc'.Saving? && IsWrite(m, pc'.write) && pc'.write.status != Sent && t' == t.(lostSaves := t.lostSaves + 1)
      else pc' == Releasing && t' == t
    case _ => false
  }

  lemma HeadForm(s: State, r: RunId, step: Step) returns (pc: Pc, t: Tally)
    requires Inv(s) && Enabled(s, step) && OnHead(step) && step.run == r && !step.SaveOk?
    ensures Apply(s, step) == AtHead(s, r, pc, t)
    ensures HeadMove(s.runs[r].claimed[0], s.runs[r].pc, HeadTally(s, r), pc, t)
  {
    HeadWrite(s, r);
    if step.SaveFails? {
      pc, t := SaveFailsForm(s, r, step.error);
    } else {
      pc, t := Apply(s, step).runs[r].pc, HeadTally(Apply(s, step), r);
    }
  }

  lemma SaveFailsForm(s: State, r: RunId, e: Caught) returns (pc: Pc, t: Tally)
    requires Inv(s) && Enabled(s, SaveFails(r, e))
    ensures SaveFailsStep(s, r, e) == AtHead(s, r, pc, t)
    ensures HeadMove(s.runs[r].claimed[0], s.runs[r].pc, HeadTally(s, r), pc, t)
  {
    HeadIsOwn(s, r);
    HeadWrite(s, r);
    var s' := SaveFailsStep(s, r, e);
    pc, t := s'.runs[r].pc, HeadTally(s', r);
    assert s.tally == s.tally[s.runs[r].claimed[0].id := HeadTally(s, r)];
  }

  /** The message at hand, and what may be saved for it. */
  lemma HeadWrite(s: State, r: RunId)
    requires Inv(s) && r in s.runs && s.runs[r].claimed != []
    ensures s.runs[r].claimed[0].status == Processing && s.runs[r].claimed[0].retryCount <= RETRY_LIMIT
    ensures s.runs[r].pc.Saving? ==> IsWrite(s.runs[r].claimed[0], s.runs[r].pc.write)
  {
    assert RunOk(s, r) && Owned(s, r, 0);
    assert RowOk(s, s.runs[r].claimed[0].id);
  }

  lemma AtHeadEffect(s: State, r: RunId, pc: Pc, t: Tally)
    requires Inv(s) && r in s.runs && s.runs[r].claimed != []
    requires t.reschedules == HeadTally(s, r).reschedules && t.stale == HeadTally(s, r).stale
    ensures OnlyHead(s, AtHead(s, r, pc, t), r)
  {
    HeadIsOwn(s, r);
  }

  lemma OnHeadEffect(s: State, r: RunId, step: Step)
    requires Inv(s) && Enabled(s, step) && OnHead(step) && step.run == r
    ensures OnlyHead(s, Apply(s, step), r)
  {
    if step.SaveOk? {
      SaveOkEffect(s, r);
    } else {
      var pc, t := HeadForm(s, r, step);
      AtHeadEffect(s, r, pc, t);
    }
  }

  lemma SaveOkEffect(s: State, r: RunId)
    requires Inv(s) && Enabled(s, SaveOk(r))
    ensures OnlyHead(s, SaveOkStep(s, r), r)
  {
    HeadIsOwn(s, r);
    assert RunOk(s, r);
  }

  lemma OnHeadKeeps(s: State, r: RunId, step: Step)
    requires Inv(s) && Enabled(s, step) && OnHead(step) && step.run == r
    ensures Inv(Apply(s, step))
  {
    var s' := Apply(s, step);
    OnHeadEffect(s, r, step);
    forall r' <- s'.runs ensures RunOk(s', r') {
      if r' != r {
        OnHeadOther(s, s', r, r');
      } else {
        OnHeadSelf(s, r, step);
      }
    }
    forall id <- s'.rows ensures RowOk(s', id) {
      if id != s.runs[r].claimed[0].id {
        OnHeadOtherRow(s, s', r, id);
      } else {
        OnHeadOwnRow(s, r, step);
      }
    }
  }

  lemma OnHeadOther(s: State, s': State, r: RunId, r': RunId)
    requires Inv(s) && r in s.runs && s.runs[r].claimed != [] && OnlyHead(s, s', r)
    requires r' in s.runs && r' != r
    ensures RunOk(s', r')
  {
    HeadIsOwn(s, r);
    var id := s.runs[r].claimed[0].id;
    assert RunOk(s, r');
    forall m <- s.runs[r'].claimed ensures m.id != id && m.id in s.rows && m.id in s.owner && s.owner[m.id] == r' && m.id in s.tally {
      var i :| 0 <= i < |s.runs[r'].claimed| && s.runs[r'].claimed[i] == m;
      assert Owned(s, r', i);
      assert RowOk(s, m.id);
    }
    OthersCandidates(s, s', r, r');
    RunFrame(s, s', r');
  }

  /** A claimed row is PROCESSING, so changes to it do not reach what another run is about to claim. */
  lemma OthersCandidates(s: State, s': State, r: RunId, r': RunId)
    requires Inv(s) && r in s.runs && s.runs[r].claimed != [] && OnlyHead(s, s', r) && r' in s.runs
    requires CandidatesOk(s, s.runs[r'])
    ensures CandidatesOk(s', s.runs[r'])
  {
    var run := s.runs[r'];
    if run.pc.Claiming? {
      forall id <- run.pc.candidates ensures id in s'.rows && SeenOk(run, s'.rows[id], TallyOf(s', id)) {
        assert RowOk(s, id);
      }
    }
  }

  lemma OnHeadOtherRow(s: State, s': State, r: RunId, id: Id)
    requires Inv(s) && r in s.runs && s.runs[r].claimed != [] && OnlyHead(s, s', r)
    requires id in s.rows && id != s.runs[r].claimed[0].id
    ensures RowOk(s', id)
  {
    assert RowOk(s, id);
    if s.rows[id].status == Processing && s.owner[id] == r {
      var claimed, claimed' := s.runs[r].claimed, s'.runs[r].claimed;
      var i :| 0 <= i < |claimed| && claimed[i].id == id;
      assert claimed' == claimed[1..] ==> claimed'[i - 1].id == id;
      assert claimed' == claimed ==> claimed'[i].id == id;
    }
  }

  lemma OnHeadOwnRow(s: State, r: RunId, step: Step)
    requires Inv(s) && Enabled(s, step) && OnHead(step) && step.run == r
    ensures s.runs[r].claimed[0].id in Apply(s, step).rows && RowOk(Apply(s, step), s.runs[r].claimed[0].id)
  {
    if step.SaveOk? {
      SavedRowOk(s, r);
    } else {
      var pc, t := HeadForm(s, r, step);
      AtHeadRowOk(s, r, pc, t);
    }
  }

  lemma AtHeadRowOk(s: State, r: RunId, pc: Pc, t: Tally)
    requires Inv(s) && r in s.runs && s.runs[r].claimed != []
    requires HeadMove(s.runs[r].claimed[0], s.runs[r].pc, HeadTally(s, r), pc, t)
    ensures s.runs[r].claimed[0].id in s.rows && RowOk(AtHead(s, r, pc, t), s.runs[r].claimed[0].id)
  {
    HeadIsOwn(s, r);
    AtHeadEffect(s, r, pc, t);
    AtHeadCounted(s, r, pc, t);
    CountedRowOk(s, AtHead(s, r, pc, t), r);
  }

  lemma SavedRowOk(s: State, r: RunId)
    requires Inv(s) && Enabled(s, SaveOk(r))
    ensures s.runs[r].claimed[0].id in SaveOkStep(s, r).rows && RowOk(SaveOkStep(s, r), s.runs[r].claimed[0].id)
  {
    HeadIsOwn(s, r);
    assert RunOk(s, r) && Owned(s, r, 0) && Counted(s, r, 0);
    assert RowOk(s, s.runs[r].claimed[0].id);
  }

  /** A run that dropped out of its loop leaves the tally it reached; one that goes on is counted. */
  lemma CountedRowOk(s: State, s': State, r: RunId)
    requires Inv(s) && r in s.runs && s.runs[r].claimed != [] && OnlyHead(s, s', r) && s'.rows == s.rows
    requires s'.runs[r].claimed == s.runs[r].claimed
    requires Owned(s', r, 0) && Counted(s', r, 0)
    requires !Live(s'.runs[r].pc) ==> HeadTally(s', r) == HeadTally(s, r)
    ensures RowOk(s', s.runs[r].claimed[0].id)
  {
    var id := s.runs[r].claimed[0].id;
    assert RowOk(s, id);
    assert s'.runs[r].claimed[0].id == id;
  }

  lemma OnHeadSelf(s: State, r: RunId, step: Step)
    requires Inv(s) && Enabled(s, step) && OnHead(step) && step.run == r
    ensures RunOk(Apply(s, step), r)
  {
    assert RunOk(s, r);
    if step.SaveOk? {
      SaveOkEffect(s, r);
      OnHeadRun(s, SaveOkStep(s, r), r, 1);
    } else {
      var pc, t := HeadForm(s, r, step);
      AtHeadEffect(s, r, pc, t);
      AtHeadCounted(s, r, pc, t);
      OnHeadRun(s, AtHead(s, r, pc, t), r, 0);
    }
  }

  lemma OnHeadRun(s: State, s': State, r: RunId, d: nat)
    requires Inv(s) && r in s.runs && s.runs[r].claimed != [] && OnlyHead(s, s', r)
    requires d <= 1 && Live(s.runs[r].pc) && s'.runs[r].claimed == s.runs[r].claimed[d..]
    requires var pc := s'.runs[r].pc;
             && (pc.Awaiting? || pc.Saving? || pc.Sending? || pc.Releasing?)
             && (pc.Saving? ==> IsWrite(s.runs[r].claimed[0], pc.write))
             && if d == 1 then pc == Sending else Owned(s', r, 0) && Counted(s', r, 0)
    ensures RunOk(s', r)
  {
    assert RunOk(s, r);
    forall i | 0 <= i < |s'.runs[r].claimed| ensures Owned(s', r, i) && Counted(s', r, i) {
      if i + d > 0 {
        TailKept(s, s', r, i, d);
      }
    }
    assert forall i :: 0 <= i < |s'.runs[r].claimed| ==> s'.runs[r].claimed[i] == s.runs[r].claimed[i + d];
  }

  lemma TailKept(s: State, s': State, r: RunId, i: nat, d: nat)
    requires Inv(s) && r in s.runs && s.runs[r].claimed != [] && OnlyHead(s, s', r)
    requires Live(s.runs[r].pc) && d <= 1 && i + d > 0 && i < |s'.runs[r].claimed|
    requires s'.runs[r].claimed == s.runs[r].claimed[d..] && (d == 1 ==> s'.runs[r].pc == Sending)
    ensures Owned(s', r, i) && Counted(s', r, i)
  {
    var m := s.runs[r].claimed[i + d];
    assert RunOk(s, r) && Owned(s, r, i + d) && Counted(s, r, i + d);
    assert m.id != s.runs[r].claimed[0].id && s'.runs[r].claimed[i] == m;
    assert RowOk(s, m.id);
  }

  lemma AtHeadCounted(s: State, r: RunId, pc: Pc, t: Tally)
    requires Inv(s) && r in s.runs && s.runs[r].claimed != []
    requires HeadMove(s.runs[r].claimed[0], s.runs[r].pc, HeadTally(s, r), pc, t)
    ensures Owned(AtHead(s, r, pc, t), r, 0) && Counted(AtHead(s, r, pc, t), r, 0)
  {
    HeadIsOwn(s, r);
    assert RunOk(s, r) && Owned(s, r, 0) && Counted(s, r, 0);
  }

  lemma CreateKeeps(s: State, id: Id, userId: string, dto: CreateDto)
    requires Inv(s) && id !in s.rows
    ensures Inv(CreateStep(s, id, userId, dto))
  {
    var s' := CreateStep(s, id, userId, dto);
    if s' != s {
      forall r <- s'.runs ensures RunOk(s', r) {
        WrittenBesideRun(s, s', id, r);
      }
      forall x <- s'.rows ensures RowOk(s', x) {
        if x in s.rows {
          assert RowOk(s, x);
        }
      }
    }
  }

  /** A write to a row that is PENDING or new does not reach the claims of a run. */
  lemma WrittenBesideRun(s: State, s': State, id: Id, r: RunId)
    requires Inv(s) && r in s.runs && (id in s.rows ==> s.rows[id].status == Pending)
    requires s'.runs == s.runs && s'.owner == s.owner && s'.clock == s.clock
    requires s.rows.Keys <= s'.rows.Keys && forall x <- s.rows :: x != id ==> s'.rows[x] == s.rows[x]
    requires s.tally.Keys <= s'.tally.Keys && forall x <- s.tally :: x != id ==> s'.tally[x] == s.tally[x]
    requires CandidatesOk(s', s.runs[r])
    ensures RunOk(s', r)
  {
    assert RunOk(s, r);
    forall m <- s.runs[r].claimed
      ensures m.id in s.rows && m.id in s.owner && s.owner[m.id] == r && m.id in s.tally && m.id != id
    {
      var i :| 0 <= i < |s.runs[r].claimed| && s.runs[r].claimed[i] == m;
      assert Owned(s, r, i) && RowOk(s, m.id);
    }
    RunFrame(s, s', r);
  }

  /** The save of an update or cancel of a row as it is, atomic or split. */
  lemma CommitKeeps(s: State, m: Message, op: UserOp, write: Message)
    requires Inv(s) && m.id in s.rows && s.rows[m.id] == m && IsEdit(m, op, write)
    ensures Inv(Commit(s, m.id, write, op))
  {
    var s' := Commit(s, m.id, write, op);
    assert RowOk(s, m.id);
    forall r <- s'.runs ensures RunOk(s', r) {
      assert RunOk(s, r);
      CommitSeen(s, m, op, write, s.runs[r]);
      WrittenBesideRun(s, s', m.id, r);
    }
    forall x <- s'.rows ensures RowOk(s', x) {
      assert RowOk(s, x);
    }
  }

  /** A candidate stays a sighting of its row, whatever the edit. */
  lemma CommitSeen(s: State, m: Message, op: UserOp, write: Message, run: Run)
    requires m.id in s.rows && s.rows[m.id] == m && IsEdit(m, op, write)
    requires CandidatesOk(s, run) && run.now <= s.clock
    ensures CandidatesOk(Commit(s, m.id, write, op), run)
  {
    var s' := Commit(s, m.id, write, op);
    if run.pc.Claiming? {
      forall id <- run.pc.candidates ensures id in s'.rows && SeenOk(run, s'.rows[id], TallyOf(s', id)) {
        assert SeenOk(run, s.rows[id], TallyOf(s, id));
      }
    }
  }

  /** An accepted update or cancel is an edit of the row. */
  lemma UserResultIsEdit(s: State, id: Id, userId: string, op: UserOp)
    requires UserResult(s, id, userId, op).Ok? && id in s.rows && s.rows[id].id == id
    ensures IsEdit(s.rows[id], op, UserResult(s, id, userId, op).value)
  {
  }

  /** Steps of users. */
  predicate OfUser(step: Step) {
    step.Create? || step.User? || step.ReadDraft? || step.SaveDraft?
  }

  predicate Edited(m: Message, write: Message) {
    && m.status == Pending
    && (|| write == m.(status := Cancelled)
        || write == m.(scheduledAt := write.scheduledAt, content := write.content, metadata := write.metadata))
  }

  /** Users leave runs, owners and every row that is not PENDING. */
  ghost predicate UserChange(s: State, s': State) {
    && s'.runs == s.runs && s'.owner == s.owner && s'.clock == s.clock && s'.lock == s.lock
    && s.rows.Keys <= s'.rows.Keys
    && forall x <- s.rows :: Edited(s.rows[x], s'.rows[x]) || (s'.rows[x] == s.rows[x] && TallyOf(s', x) == TallyOf(s, x))
  }

  lemma CommitEffect(s: State, m: Message, op: UserOp, write: Message)
    requires m.id in s.rows && s.rows[m.id] == m && IsEdit(m, op, write)
    ensures UserChange(s, Commit(s, m.id, write, op))
  {
  }

  lemma CreateEffect(s: State, id: Id, userId: string, dto: CreateDto)
    requires id !in s.rows
    ensures UserChange(s, CreateStep(s, id, userId, dto))
  {
  }

  lemma DraftsEffect(s: State, s': State)
    requires s' == s.(drafts := s'.drafts)
    ensures UserChange(s, s')
  {
  }

  lemma UserEffect(s: State, step: Step)
    requires Inv(s) && Enabled(s, step) && Careful(s, step) && OfUser(step)
    ensures UserChange(s, Apply(s, step))
  {
    match step
    case Create(id, userId, dto) => CreateEffect(s, id, userId, dto);
    case SaveDraft(d) =>
      var draft := s.drafts[d];
      assert DraftOk(s, draft);
      CommitEffect(s, draft.seen, draft.op, draft.write);
    case User(id, userId, op) => UserStepEffect(s, id, userId, op);
    case ReadDraft(d, id, userId, op) => DraftsEffect(s, ReadDraftStep(s, d, id, userId, op));
  }

  lemma UserStepEffect(s: State, id: Id, userId: string, op: UserOp)
    requires Inv(s)
    ensures UserChange(s, UserStep(s, id, userId, op))
  {
    if UserResult(s, id, userId, op).Ok? {
      assert RowOk(s, id);
      UserResultIsEdit(s, id, userId, op);
      CommitEffect(s, s.rows[id], op, UserResult(s, id, userId, op).value);
    }
  }

  lemma UserKeeps(s: State, step: Step)
    requires Inv(s) && Enabled(s, step) && Careful(s, step) && OfUser(step)
    ensures Inv(Apply(s, step))
  {
    if step.Create? {
      CreateKeeps(s, step.id, step.userId, step.create);
    } else if step.SaveDraft? {
      var draft := s.drafts[step.draft];
      assert DraftOk(s, draft);
      CommitKeeps(s, draft.seen, draft.op, draft.write);
      FewerDrafts(Commit(s, draft.seen.id, draft.write, draft.op), step.draft);
    } else if UserResult(s, step.id, step.userId, step.op).Ok? {
      assert RowOk(s, step.id);
      UserResultIsEdit(s, step.id, step.userId, step.op);
      if step.User? {
        CommitKeeps(s, s.rows[step.id], step.op, UserResult(s, step.id, step.userId, step.op).value);
      } else {
        OtherDrafts(s, Apply(s, step));
      }
    }
  }

  /** Drafts are no part of what rows and runs need. */
  lemma OtherDrafts(s: State, s': State)
    requires Inv(s) && s' == s.(drafts := s'.drafts) && forall d <- s'.drafts :: DraftOk(s', s'.drafts[d])
    ensures Inv(s')
  {
    forall r <- s'.runs ensures RunOk(s', r) {
      IdleRun(s, s', r);
    }
    forall id <- s'.rows ensures RowOk(s', id) {
      assert RowOk(s, id);
    }
  }

  lemma FewerDrafts(s: State, d: DraftId)
    requires Inv(s)
    ensures Inv(s.(drafts := s.drafts - {d}))
  {
    var s' := s.(drafts := s.drafts - {d});
    forall x <- s'.drafts ensures DraftOk(s', s'.drafts[x]) {
      assert DraftOk(s, s.drafts[x]);
    }
    OtherDrafts(s, s');
  }

  lemma StepKeepsInv(s: State, step: Step)
    requires Inv(s) && Enabled(s, step) && Careful(s, step)
    ensures Inv(Apply(s, step))
  {
    if Internal(step) {
      InternalKeeps(s, step);
    } else if OnHead(step) {
      OnHeadKeeps(s, step.run, step);
    } else if step.Claim? {
      ClaimKeeps(s, step.run, step.batch);
    } else {
      UserKeeps(s, step);
    }
  }

  lemma {:induction false} RunKeepsInv(s: State, steps: seq<Step>)
    requires Inv(s) && Valid(s, steps) && AllCareful(s, steps)
    ensures Inv(After(s, steps))
    decreases |steps|
  {
    if steps != [] {
      StepKeepsInv(s, steps[0]);
      RunKeepsInv(Apply(s, steps[0]), steps[1..]);
    }
  }

  lemma ReachableInv(s: State)
    requires Reachable(s)
    ensures Inv(s)
  {
    var s0, steps :| Reaches(s0, steps, s);
    RunKeepsInv(s0, steps);
  }
}
