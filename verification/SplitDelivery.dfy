/**
 How often a message is delivered when users do what they like: updates and cancels split into a read and a
 save, saved over whatever the row has become.  A message holds one ticket for each delivery still to come;
 only a lost save, a lost reply or a save over a row in delivery makes a new one.
 */
module SplitDelivery {
  import opened Wrappers
  import opened Messages
  import opened Protocol
  import opened ProtocolSafety
  import opened Sets

  /** Which of the two counts: the calls the run saw succeed, or those the messaging service carried out. */
  datatype Count = Heard | CarriedOut

  /** Deliveries so far that no lost reply excuses. */
  function Used(t: Tally, c: Count): int {
    if c.Heard? then t.accepted else t.delivered - t.lostReplies
  }

  /** The claim at hand is counted already. */
  predicate Counting(pc: Pc, c: Count) {
    (pc.Saving? && pc.write.status == Sent) || (c.CarriedOut? && pc == Awaiting(true))
  }

  /** Run r may still deliver the message. */
  ghost predicate Ticket(s: State, r: RunId, id: Id, c: Count) {
    && r in s.runs && Live(s.runs[r].pc) && HasId(s.runs[r].claimed, id)
    && !(s.runs[r].claimed[0].id == id && Counting(s.runs[r].pc, c))
  }

  ghost function Tickets(s: State, id: Id, c: Count): set<RunId> {
    set r | r in s.runs && Ticket(s, r, id, c)
  }

  /** The row itself may still be claimed, now or after another save over it. */
  function RowTicket(s: State, id: Id): nat {
    if id in s.rows && !InDelivery(s, id) then 1 else 0
  }

  ghost predicate Balanced(s: State, id: Id, c: Count) {
    var t := TallyOf(s, id);
    Used(t, c) + |Tickets(s, id, c)| + RowTicket(s, id) <= 1 + t.lostSaves + t.overwrites
  }

  /** What holds of a run whatever users do. */
  ghost predicate RunShape(s: State, r: RunId)
    requires r in s.runs
  {
    var run := s.runs[r];
    && (run.pc.Started? || run.pc.Selecting? || run.pc.Claiming? ==> run.claimed == [])
    && (InCall(run.pc) ==> run.claimed != [])
    && (run.pc.Saving? ==> run.pc.write.id == run.claimed[0].id && run.pc.write.status != Processing)
    && (forall i, j :: 0 <= i < j < |run.claimed| ==> run.claimed[i].id != run.claimed[j].id)
    && (forall m <- run.claimed :: m.id in s.rows)
  }

  ghost predicate Shape(s: State) {
    && Keyed(s.rows)
    && (forall r <- s.runs :: RunShape(s, r))
    && (forall d <- s.drafts ::
          var draft := s.drafts[d];
          draft.seen.id in s.rows && draft.write.id == draft.seen.id && draft.write.status in {Pending, Cancelled})
  }

  ghost predicate Books(s: State) {
    Shape(s) && forall id <- s.rows, c: Count :: Balanced(s, id, c)
  }

  // ---------------------------------------------------------------- tickets over one step

  ghost function TicketOf(s: State, r: RunId, id: Id, c: Count): nat {
    if Ticket(s, r, id, c) then 1 else 0
  }

  lemma OneRunsTicket(s: State, s': State, r: RunId, id: Id, c: Count)
    requires r in s'.runs && s'.runs == s.runs[r := s'.runs[r]]
    ensures |Tickets(s', id, c)| + TicketOf(s, r, id, c) == |Tickets(s, id, c)| + TicketOf(s', r, id, c)
  {
    var before, after := Tickets(s, id, c), Tickets(s', id, c);
    forall r' | r' != r ensures r' in before <==> r' in after {
      assert r' in s.runs ==> s'.runs[r'] == s.runs[r'];
    }
    ApartFromOne(before, after, r);
  }

  /** What one run, the row and the counts add up to. */
  ghost function Standing(s: State, r: RunId, id: Id, c: Count): int {
    var t := TallyOf(s, id);
    Used(t, c) + TicketOf(s, r, id, c) + RowTicket(s, id) - t.lostSaves - t.overwrites
  }

  lemma RunKeepsBalance(s: State, s': State, r: RunId, id: Id, c: Count)
    requires Balanced(s, id, c) && r in s'.runs && s'.runs == s.runs[r := s'.runs[r]]
    requires Standing(s', r, id, c) <= Standing(s, r, id, c)
    ensures Balanced(s', id, c)
  {
    OneRunsTicket(s, s', r, id, c);
  }

  lemma OtherShapes(s: State, s': State, r: RunId)
    requires Shape(s) && r in s'.runs && s'.runs == s.runs[r := s'.runs[r]] && RunShape(s', r)
    requires s.rows.Keys <= s'.rows.Keys && Keyed(s'.rows) && s'.drafts == s.drafts
    ensures Shape(s')
  {
    forall r' <- s'.runs ensures RunShape(s', r') {
      assert r' != r ==> RunShape(s, r');
    }
  }

  // ---------------------------------------------------------------- steps of a run

  /** A step that leaves table and counts, and at most ends the run's work. */
  lemma QuietStep(s: State, s': State, r: RunId)
    requires Books(s) && r in s'.runs && s'.runs == s.runs[r := s'.runs[r]] && RunShape(s', r)
    requires SameHistory(s, s') && s'.drafts == s.drafts
    requires s'.runs[r].claimed == [] || !Live(s'.runs[r].pc)
    ensures Books(s')
  {
    OtherShapes(s, s', r);
    forall id <- s'.rows, c: Count ensures Balanced(s', id, c) {
      RunKeepsBalance(s, s', r, id, c);
    }
  }

  lemma InternalStep(s: State, step: Step)
    requires Books(s) && Enabled(s, step) && Internal(step)
    ensures Books(Apply(s, step))
  {
    if step.TimePasses? {
      SameRuns(s, Apply(s, step));
    } else if step.Acquire? {
      AcquireStep(s, step.run, step.pod);
    } else {
      OwnQuietStep(s, step);
    }
  }

  lemma AcquireStep(s: State, r: RunId, pod: Pod)
    requires Books(s) && r !in s.runs
    ensures Books(AcquireLock(s, r, pod))
  {
    if !LockLive(s) {
      QuietStep(s, AcquireLock(s, r, pod), r);
    }
  }

  lemma OwnQuietStep(s: State, step: Step)
    requires Books(s) && Enabled(s, step) && Internal(step) && !step.TimePasses? && !step.Acquire?
    ensures Books(Apply(s, step))
  {
    assert RunShape(s, step.run);
    if step.ReadClock? {
      ClockRead(s, step.run);
    } else if step.Select? {
      QuietStep(s, SelectStep(s, step.run, step.ids), step.run);
    } else if step.Release? {
      Released(s, step.run, step.redisUp);
    } else {
      WorkOver(s, step.run, if step.Crash? then Ended else Releasing);
    }
  }

  lemma ClockRead(s: State, r: RunId)
    requires Books(s) && Enabled(s, ReadClock(r))
    ensures Books(Apply(s, ReadClock(r)))
  {
    assert RunShape(s, r);
    QuietStep(s, Apply(s, ReadClock(r)), r);
  }

  lemma Released(s: State, r: RunId, redisUp: bool)
    requires Books(s) && r in s.runs
    ensures Books(ReleaseStep(s, r, redisUp))
  {
    assert RunShape(s, r);
    QuietStep(s, ReleaseStep(s, r, redisUp), r);
  }

  lemma WorkOver(s: State, r: RunId, pc: Pc)
    requires Books(s) && r in s.runs && !Live(pc)
    ensures Books(WithPc(s, r, pc))
  {
    assert RunShape(s, r);
    QuietStep(s, WithPc(s, r, pc), r);
  }

  /** A step that changes neither runs, table nor counts. */
  lemma SameRuns(s: State, s': State)
    requires Books(s) && s'.runs == s.runs && SameHistory(s, s') && s'.drafts == s.drafts
    ensures Books(s')
  {
    forall r <- s'.runs ensures RunShape(s', r) {
      assert RunShape(s, r);
    }
    forall id <- s'.rows, c: Count ensures Balanced(s', id, c) {
      assert Balanced(s, id, c);
      assert Tickets(s', id, c) == Tickets(s, id, c);
    }
  }

  /** A transition at the first claimed message m, apart from its save, in a state where runs may share m. */
  predicate FreeMove(m: Message, pc: Pc, t: Tally, pc': Pc, t': Tally) {
    && t'.overwrites == t.overwrites
    && match pc
       case Sending => pc'.Awaiting? && t' == t.(attempts := t.attempts + 1, delivered := t.delivered + (if pc'.delivered then 1 else 0))
       case Awaiting(delivered) =>
         && pc'.Saving? && pc'.write.id == m.id && pc'.write.status != Processing
         && if pc'.write.status == Sent then delivered && t' == t.(accepted := t.accepted + 1)
            else t' == t.(lostReplies := t.lostReplies + (if delivered then 1 else 0))
       case Saving(write) =>
         if write.status == Sent then
           && pc'.Saving? && pc'.write.id == m.id && pc'.write.status != Processing && pc'.write.status != Sent
           && t' == t.(lostSaves := t.lostSaves + 1)
         else pc' == Releasing && t' == t
       case _ => false
  }

  /** The run moved at its first claimed message, whose counts are now t; nothing else changed. */
  ghost predicate MovedTo(s: State, s': State, r: RunId, pc: Pc, t: Tally)
    requires r in s.runs && s.runs[r].claimed != []
  {
    && s'.rows == s.rows && s'.drafts == s.drafts && s'.runs == s.runs[r := s.runs[r].(pc := pc)]
    && forall id :: TallyOf(s', id) == if id == s.runs[r].claimed[0].id then t else TallyOf(s, id)
  }

  lemma AtHeadMoves(s: State, r: RunId, pc: Pc, t: Tally)
    requires r in s.runs && s.runs[r].claimed != []
    ensures MovedTo(s, AtHead(s, r, pc, t), r, pc, t)
  {
  }

  lemma FreeForm(s: State, r: RunId, step: Step) returns (pc: Pc, t: Tally)
    requires Shape(s) && Enabled(s, step) && OnHead(step) && step.run == r && !step.SaveOk?
    ensures MovedTo(s, Apply(s, step), r, pc, t)
    ensures FreeMove(s.runs[r].claimed[0], s.runs[r].pc, HeadTally(s, r), pc, t)
  {
    if step.SaveFails? {
      pc, t := FreeSaveFails(s, r, step.error);
    } else {
      pc, t := FreeCall(s, r, step);
      AtHeadMoves(s, r, pc, t);
    }
  }

  lemma FreeCall(s: State, r: RunId, step: Step) returns (pc: Pc, t: Tally)
    requires (step.Call? || step.ReplyOk? || step.ReplyError?) && step.run == r && Enabled(s, step)
    ensures Apply(s, step) == AtHead(s, r, pc, t)
    ensures FreeMove(s.runs[r].claimed[0], s.runs[r].pc, HeadTally(s, r), pc, t)
  {
    pc, t := Apply(s, step).runs[r].pc, HeadTally(Apply(s, step), r);
  }

  lemma FreeSaveFails(s: State, r: RunId, e: Caught) returns (pc: Pc, t: Tally)
    requires Shape(s) && Enabled(s, SaveFails(r, e))
    ensures MovedTo(s, SaveFailsStep(s, r, e), r, pc, t)
    ensures FreeMove(s.runs[r].claimed[0], s.runs[r].pc, HeadTally(s, r), pc, t)
  {
    assert RunShape(s, r);
    pc, t := SaveFailsStep(s, r, e).runs[r].pc, HeadTally(SaveFailsStep(s, r, e), r);
  }

  lemma HeadStep(s: State, r: RunId, step: Step)
    requires Books(s) && Enabled(s, step) && OnHead(step) && step.run == r && !step.SaveOk?
    ensures Books(Apply(s, step))
  {
    assert RunShape(s, r);
    var pc, t := FreeForm(s, r, step);
    var s' := Apply(s, step);
    OtherShapes(s, s', r);
    forall id <- s'.rows, c: Count ensures Balanced(s', id, c) {
      assert Balanced(s, id, c);
      HeadStanding(s, s', r, pc, t, id, c);
      RunKeepsBalance(s, s', r, id, c);
    }
  }

  lemma HeadStanding(s: State, s': State, r: RunId, pc: Pc, t: Tally, id: Id, c: Count)
    requires r in s.runs && s.runs[r].claimed != [] && MovedTo(s, s', r, pc, t)
    requires FreeMove(s.runs[r].claimed[0], s.runs[r].pc, HeadTally(s, r), pc, t)
    ensures Standing(s', r, id, c) <= Standing(s, r, id, c)
  {
    if id == s.runs[r].claimed[0].id {
      assert HasId(s.runs[r].claimed, id);
    }
  }

  /** A save spends the claim; what it writes may be claimed again unless it is SENT. */
  lemma SavedStep(s: State, r: RunId)
    requires Books(s) && Enabled(s, SaveOk(r))
    ensures Books(SaveOkStep(s, r))
  {
    var s' := SaveOkStep(s, r);
    assert RunShape(s, r);
    var claimed, head := s.runs[r].claimed, s.runs[r].claimed[0].id;
    assert forall i :: 0 <= i < |claimed[1..]| ==> claimed[1..][i] == claimed[i + 1];
    OtherShapes(s, s', r);
    forall id <- s'.rows, c: Count ensures Balanced(s', id, c) {
      assert Balanced(s, id, c);
      if id == head {
        assert HasId(claimed, id) && !HasId(claimed[1..], id);
      } else {
        TailHas(claimed, id);
      }
      RunKeepsBalance(s, s', r, id, c);
    }
  }

  lemma TailHas(claimed: seq<Message>, id: Id)
    requires claimed != [] && claimed[0].id != id
    ensures HasId(claimed[1..], id) ==> HasId(claimed, id)
  {
    if HasId(claimed[1..], id) {
      var i :| 0 <= i < |claimed[1..]| && claimed[1..][i].id == id;
      assert claimed[i + 1].id == id;
    }
  }

  /** The claim turns the tickets of rows into tickets of the run. */
  lemma ClaimedStep(s: State, r: RunId, batch: seq<Message>)
    requires Books(s) && Enabled(s, Claim(r, batch))
    ensures Books(ClaimStep(s, r, batch))
  {
    var s' := ClaimStep(s, r, batch);
    assert RunShape(s, r);
    forall m <- batch ensures m.id in s.rows && Claimable(s.rows, m.id, s.runs[r].pc.candidates) {
      var i :| 0 <= i < |batch| && batch[i] == m;
      assert Claimable(s.rows, batch[i].id, s.runs[r].pc.candidates);
    }
    OtherShapes(s, s', r);
    forall id <- s'.rows, c: Count ensures Balanced(s', id, c) {
      assert Balanced(s, id, c);
      ClaimStanding(s, r, batch, id, c);
      RunKeepsBalance(s, s', r, id, c);
    }
  }

  lemma ClaimStanding(s: State, r: RunId, batch: seq<Message>, id: Id, c: Count)
    requires r in s.runs && s.runs[r].pc.Claiming? && s.runs[r].claimed == [] && id in s.rows
    requires IsReturned(s.rows, s.runs[r].pc.candidates, batch)
    ensures Standing(ClaimStep(s, r, batch), r, id, c) <= Standing(s, r, id, c)
  {
    if HasId(batch, id) {
      var i :| 0 <= i < |batch| && batch[i].id == id;
      assert Claimable(s.rows, batch[i].id, s.runs[r].pc.candidates);
    }
  }

  // ---------------------------------------------------------------- steps of users

  const NO_CALLS := Tally(0, 0, 0, 0, 0, 0, 0, 0)

  /** Only row id and its counts change. */
  ghost predicate OneRow(s: State, s': State, id: Id) {
    && s'.runs == s.runs && s.rows.Keys <= s'.rows.Keys <= s.rows.Keys + {id}
    && (forall x <- s.rows :: x != id ==> s'.rows[x] == s.rows[x])
    && (forall x :: x != id ==> TallyOf(s', x) == TallyOf(s, x))
  }

  /** A user's step on one row that gives it no ticket off the books. */
  lemma UserStepBalanced(s: State, s': State, id: Id)
    requires Books(s) && Shape(s') && OneRow(s, s', id)
    requires var t, t' := TallyOf(s, id), TallyOf(s', id);
             if id in s.rows then
               && t'.accepted == t.accepted && t'.delivered == t.delivered
               && t'.lostReplies == t.lostReplies && t'.lostSaves == t.lostSaves
               && RowTicket(s', id) + t.overwrites <= RowTicket(s, id) + t'.overwrites
             else id in s'.rows ==> t' == NO_CALLS
    ensures Books(s')
  {
    forall x <- s'.rows, c: Count ensures Balanced(s', x, c) {
      assert Tickets(s', x, c) == Tickets(s, x, c);
      if x in s.rows {
        assert Balanced(s, x, c);
      } else {
        NoTickets(s, x, c);
      }
    }
  }

  lemma NoTickets(s: State, id: Id, c: Count)
    requires Shape(s) && id !in s.rows
    ensures Tickets(s, id, c) == {}
  {
    forall r | r in s.runs ensures !Ticket(s, r, id, c) {
      assert RunShape(s, r);
      assert forall i :: 0 <= i < |s.runs[r].claimed| ==> s.runs[r].claimed[i] in s.runs[r].claimed;
    }
  }

  lemma ShapeBeside(s: State, s': State)
    requires Shape(s) && s'.runs == s.runs && s.rows.Keys <= s'.rows.Keys && Keyed(s'.rows)
    requires forall d <- s'.drafts ::
               var draft := s'.drafts[d];
               draft.seen.id in s'.rows && draft.write.id == draft.seen.id && draft.write.status in {Pending, Cancelled}
    ensures Shape(s')
  {
    forall r <- s'.runs ensures RunShape(s', r) {
      assert RunShape(s, r);
    }
  }

  lemma CreateBooks(s: State, id: Id, userId: string, dto: CreateDto)
    requires Books(s) && id !in s.rows
    ensures Books(CreateStep(s, id, userId, dto))
  {
    if NewMessage(id, userId, dto, s.clock).Ok? {
      var s' := CreateStep(s, id, userId, dto);
      assert s'.rows == s.rows[id := NewMessage(id, userId, dto, s.clock).value] && TallyOf(s', id) == NO_CALLS;
      ShapeBeside(s, s');
      UserStepBalanced(s, s', id);
    }
  }

  lemma CommitBooks(s: State, id: Id, op: UserOp, write: Message)
    requires Books(s) && id in s.rows && IsEdit(s.rows[id], op, write)
    ensures Books(Commit(s, id, write, op))
  {
    var s' := Commit(s, id, write, op);
    ShapeBeside(s, s');
    UserStepBalanced(s, s', id);
  }

  lemma UserOpBooks(s: State, id: Id, userId: string, op: UserOp)
    requires Books(s)
    ensures Books(UserStep(s, id, userId, op))
  {
    if UserResult(s, id, userId, op).Ok? {
      UserResultIsEdit(s, id, userId, op);
      CommitBooks(s, id, op, UserResult(s, id, userId, op).value);
    }
  }

  /** A save over a row in delivery gives it a ticket, and is on the books. */
  lemma SaveDraftBooks(s: State, d: DraftId)
    requires Books(s) && d in s.drafts
    ensures Books(SaveDraftStep(s, d))
  {
    var s', id := SaveDraftStep(s, d), s.drafts[d].seen.id;
    assert s'.rows == s.rows[id := s.drafts[d].write];
    ShapeBeside(s, s');
    UserStepBalanced(s, s', id);
  }

  lemma ReadDraftBooks(s: State, d: DraftId, id: Id, userId: string, op: UserOp)
    requires Books(s)
    ensures Books(ReadDraftStep(s, d, id, userId, op))
  {
    var s' := ReadDraftStep(s, d, id, userId, op);
    if UserResult(s, id, userId, op).Ok? {
      UserResultIsEdit(s, id, userId, op);
    }
    ShapeBeside(s, s');
    UserStepBalanced(s, s', id);
  }

  lemma UserBooks(s: State, step: Step)
    requires Books(s) && Enabled(s, step) && OfUser(step)
    ensures Books(Apply(s, step))
  {
    match step
    case Create(id, userId, dto) => CreateBooks(s, id, userId, dto);
    case User(id, userId, op) => UserOpBooks(s, id, userId, op);
    case SaveDraft(d) => SaveDraftBooks(s, d);
    case ReadDraft(d, id, userId, op) => ReadDraftBooks(s, d, id, userId, op);
  }

  // ---------------------------------------------------------------- whole runs

  lemma StepKeepsBooks(s: State, step: Step)
    requires Books(s) && Enabled(s, step)
    ensures Books(Apply(s, step))
  {
    if Internal(step) {
      InternalStep(s, step);
    } else if step.SaveOk? {
      SavedStep(s, step.run);
    } else if OnHead(step) {
      HeadStep(s, step.run, step);
    } else if step.Claim? {
      ClaimedStep(s, step.run, step.batch);
    } else {
      UserBooks(s, step);
    }
  }

  lemma {:induction false} RunKeepsBooks(s: State, steps: seq<Step>)
    requires Books(s) && Valid(s, steps)
    ensures Books(After(s, steps))
    decreases |steps|
  {
    if steps != [] {
      StepKeepsBooks(s, steps[0]);
      RunKeepsBooks(Apply(s, steps[0]), steps[1..]);
    }
  }

  /**
   In every run, whatever faults happen and whatever users save over, a message's accepted sends are at most
   1 plus its lost saves of SENT plus the split saves that found its row PROCESSING or SENT; calls the
   messaging service carried out are at most that plus the lost replies.
   */
  lemma DeliveryBoundAnyUsers(s0: State, steps: seq<Step>, id: Id)
    requires Initial(s0) && Valid(s0, steps) && id in After(s0, steps).rows
    ensures var t := TallyOf(After(s0, steps), id);
            && t.accepted <= 1 + t.lostSaves + t.overwrites
            && t.delivered <= 1 + t.lostSaves + t.lostReplies + t.overwrites
  {
    RunKeepsBooks(s0, steps);
    assert Balanced(After(s0, steps), id, Heard) && Balanced(After(s0, steps), id, CarriedOut);
  }
}
