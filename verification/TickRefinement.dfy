/**
 The bridge from the step machine to `Ticks`: a run that is not hit by a fault and not overlapped by another
 run takes the table to one Tick, whatever users do before, during and after it, so the progress bounds hold
 of the machine.
 */
module TickRefinement {
  import opened Wrappers
  import opened Messages
  import opened Protocol
  import opened Sets
  import Ticks
  import opened ProtocolSafety

  // ---------------------------------------------------------------- claim and loop, on tables

  /** The rows after every message of batch was sent and saved. */
  ghost function Settled(rows: Table, batch: seq<Message>, reply: Id -> Reply): Table {
    map id | id in rows :: if HasId(batch, id) then Settle(rows[id], reply(id)) else rows[id]
  }

  /** Settling the first message and then the others, whatever reply the others' part assumes for the first. */
  lemma SettledCons(rows: Table, batch: seq<Message>, first: Reply, rest: Id -> Reply, reply: Id -> Reply)
    requires batch != [] && batch[0].id in rows && rows[batch[0].id] == batch[0]
    requires forall i, j :: 0 <= i < j < |batch| ==> batch[i].id != batch[j].id
    requires forall id :: reply(id) == if id == batch[0].id then first else rest(id)
    ensures var m := batch[0];
            Settled(rows[m.id := Settle(m, first)], batch[1..], rest) == Settled(rows, batch, reply)
  {
    var m, tail := batch[0], batch[1..];
    assert forall i :: 0 <= i < |tail| ==> tail[i] == batch[i + 1];
    assert !HasId(tail, m.id);
    assert HasId(batch, m.id);
    forall id | id != m.id ensures HasId(batch, id) <==> HasId(tail, id) {
      if HasId(batch, id) {
        var i :| 0 <= i < |batch| && batch[i].id == id;
        assert tail[i - 1].id == id;
      }
    }
  }

  /** The claim and the loop together are one Tick. */
  lemma ClaimThenSettle(rows: Table, ids: seq<Id>, batch: seq<Message>, reply: Id -> Reply)
    requires IsReturned(rows, ids, batch)
    ensures Settled(ClaimRows(rows, ids), batch, reply) == Ticks.Tick(rows, ids, reply)
  {
    forall id <- rows ensures HasId(batch, id) <==> Claimable(rows, id, ids) {
      if HasId(batch, id) {
        var i :| 0 <= i < |batch| && batch[i].id == id;
        assert Claimable(rows, batch[i].id, ids);
      }
    }
  }

  // ---------------------------------------------------------------- steps beside a run

  /** Steps with which users write to the table. */
  predicate IsUserStep(step: Step) {
    step.Create? || step.User? || step.SaveDraft?
  }

  /** Time passes, a user reads, or the lock refuses a run. */
  predicate Idle(s: State, step: Step) {
    step.TimePasses? || step.ReadDraft? || (step.Acquire? && LockLive(s))
  }

  /** A step of run r that is no fault. */
  predicate OwnStep(step: Step, r: RunId) {
    match step
    case ReadClock(r') => r' == r
    case Select(r', _) => r' == r
    case Claim(r', _) => r' == r
    case Call(r', _) => r' == r
    case ReplyOk(r') => r' == r
    case ReplyError(r', _) => r' == r
    case SaveOk(r') => r' == r
    case FinishLoop(r') => r' == r
    case Release(r', redisUp) => r' == r && redisUp
    case _ => false
  }

  /** What may happen beside a run that does not overlap another one. */
  predicate Beside(s: State, step: Step) {
    Idle(s, step) || (IsUserStep(step) && Careful(s, step))
  }

  ghost predicate Calm(s: State, steps: seq<Step>, r: RunId)
    requires Valid(s, steps)
    decreases |steps|
  {
    steps == [] || ((Beside(s, steps[0]) || OwnStep(steps[0], r)) && Calm(Apply(s, steps[0]), steps[1..], r))
  }

  ghost predicate EndsIn(s: State, steps: seq<Step>, r: RunId)
    requires Valid(s, steps)
  {
    r in After(s, steps).runs && After(s, steps).runs[r].pc == Ended
  }

  /** No user step among them cancels or reschedules row id. */
  ghost predicate StepsLeave(s: State, steps: seq<Step>, id: Id)
    requires Valid(s, steps)
    decreases |steps|
  {
    steps == [] ||
    ((IsUserStep(steps[0]) ==> Ticks.Unmoved(s.rows, Apply(s, steps[0]).rows, id))
     && StepsLeave(Apply(s, steps[0]), steps[1..], id))
  }

  /** The step saves a reschedule whose new time has passed. */
  predicate SavesLate(s: State, step: Step)
    requires Enabled(s, step)
  {
    step.SaveDraft? && Reschedules(s.drafts[step.draft].op) && s.drafts[step.draft].write.scheduledAt <= s.clock
  }

  /** The rows the steps move to a time already reached. */
  ghost function LateRows(s: State, steps: seq<Step>): set<Id>
    requires Valid(s, steps)
    decreases |steps|
  {
    if steps == [] then {}
    else (if SavesLate(s, steps[0]) then {s.drafts[steps[0].draft].seen.id} else {}) + LateRows(Apply(s, steps[0]), steps[1..])
  }

  /** The row a user step writes to. */
  function Target(s: State, step: Step): Id
    requires IsUserStep(step) && Enabled(s, step)
  {
    if step.SaveDraft? then s.drafts[step.draft].seen.id else step.id
  }

  function UserOf(s: State, step: Step): Ticks.UserEvent
    requires IsUserStep(step) && Enabled(s, step)
  {
    match step
    case Create(id, userId, dto) => Ticks.Created(s.clock, id, userId, dto)
    case User(id, userId, UpdateOp(dto)) => Ticks.Updated(s.clock, id, userId, dto)
    case User(id, userId, CancelOp) => Ticks.CancelDone(s.clock, id, userId)
    case SaveDraft(d) => Ticks.Saved(s.clock, s.drafts[d].seen.id, s.drafts[d].op, s.drafts[d].write)
  }

  /** The user event u leads from one table to another, and is late if it is said to be. */
  ghost predicate IsEvent(rows: Table, rows': Table, u: Ticks.UserEvent, late: bool) {
    && Ticks.UserCan(rows, u) && rows' == Ticks.UserNext(rows, u)
    && Ticks.LateIds([u]) == if late then {u.id} else {}
  }

  lemma LateAlone(u: Ticks.UserEvent)
    ensures Ticks.LateIds([u]) == if u.Saved? && Reschedules(u.op) && u.write.scheduledAt <= u.now then {u.id} else {}
  {
    assert forall v <- [u] :: v == u;
    assert u in [u];
  }

  lemma UserOpIsEvent(s: State, id: Id, userId: string, op: UserOp)
    ensures IsEvent(s.rows, UserStep(s, id, userId, op).rows, UserOf(s, User(id, userId, op)), false)
  {
    LateAlone(UserOf(s, User(id, userId, op)));
  }

  lemma SavedIsEvent(s: State, d: DraftId)
    requires Inv(s) && d in s.drafts && Careful(s, SaveDraft(d))
    ensures IsEvent(s.rows, SaveDraftStep(s, d).rows, UserOf(s, SaveDraft(d)), SavesLate(s, SaveDraft(d)))
  {
    LateAlone(UserOf(s, SaveDraft(d)));
    assert DraftOk(s, s.drafts[d]);
  }

  /** A user step is an event of the table, late if the step is. */
  lemma UserStepIsEvent(s: State, step: Step)
    requires Inv(s) && Enabled(s, step) && IsUserStep(step) && Careful(s, step)
    ensures IsEvent(s.rows, Apply(s, step).rows, UserOf(s, step), SavesLate(s, step))
    ensures UserOf(s, step).now == s.clock && UserOf(s, step).id == Target(s, step)
  {
    if step.Create? {
      LateAlone(UserOf(s, step));
    } else if step.User? {
      UserOpIsEvent(s, step.id, step.userId, step.op);
    } else {
      SavedIsEvent(s, step.draft);
    }
  }

  lemma UserLeavesRuns(s: State, step: Step)
    requires Enabled(s, step) && IsUserStep(step)
    ensures Apply(s, step).runs == s.runs && Apply(s, step).clock == s.clock
  {
  }

  lemma IdleEffect(s: State, step: Step)
    requires Enabled(s, step) && Idle(s, step)
    ensures Apply(s, step).rows == s.rows && Apply(s, step).runs == s.runs && s.clock <= Apply(s, step).clock
  {
  }

  lemma OwnClock(s: State, step: Step, r: RunId)
    requires Enabled(s, step) && OwnStep(step, r)
    ensures Apply(s, step).clock == s.clock
  {
  }

  /** A calm step keeps the invariant. */
  lemma CalmStepKeeps(s: State, step: Step, r: RunId)
    requires Inv(s) && Enabled(s, step) && (Beside(s, step) || OwnStep(step, r))
    ensures Inv(Apply(s, step)) && s.clock <= Apply(s, step).clock
    ensures Idle(s, step) ==> Apply(s, step).rows == s.rows && Apply(s, step).runs == s.runs
    ensures Careful(s, step)
  {
    StepKeepsInv(s, step);
    if Idle(s, step) {
      IdleEffect(s, step);
    } else if IsUserStep(step) {
      UserLeavesRuns(s, step);
    } else {
      OwnClock(s, step, r);
    }
  }

  /** Splits a run of steps at its first. */
  lemma CalmTail(s: State, r: RunId, steps: seq<Step>)
    requires steps != [] && Valid(s, steps) && Calm(s, steps, r) && EndsIn(s, steps, r)
    ensures Enabled(s, steps[0]) && (Beside(s, steps[0]) || OwnStep(steps[0], r))
    ensures var s' := Apply(s, steps[0]);
            && Valid(s', steps[1..]) && Calm(s', steps[1..], r)
            && After(s', steps[1..]) == After(s, steps) && EndsIn(s', steps[1..], r)
  {
  }

  lemma InvQualifies(s: State)
    requires Inv(s)
    ensures Keyed(s.rows) && Ticks.CountsOk(s.rows)
  {
    forall id <- s.rows ensures s.rows[id].id == id && s.rows[id].retryCount <= RETRY_LIMIT {
      assert RowOk(s, id);
    }
  }

  // ---------------------------------------------------------------- the loop of one run

  /** Run r is in its loop or past it, and the claims it has left are the rows themselves. */
  ghost predicate InLoop(s: State, r: RunId) {
    && r in s.runs
    && var run := s.runs[r];
       && !run.pc.Started? && !run.pc.Selecting? && !run.pc.Claiming?
       && (run.pc.Awaiting? || run.pc.Saving? ==> run.claimed != [])
       && (run.pc.Saving? ==> run.pc.write.id == run.claimed[0].id)
       && (run.pc.Releasing? || run.pc.Ended? ==> run.claimed == [])
       && (forall i, j :: 0 <= i < j < |run.claimed| ==> run.claimed[i].id != run.claimed[j].id)
       && (forall i :: 0 <= i < |run.claimed| ==>
             var m := run.claimed[i];
             m.id in s.rows && s.rows[m.id] == m && m.status == Processing)
  }

  /** The table once the write in hand is saved. */
  function BaseRows(s: State, r: RunId): Table
    requires r in s.runs
  {
    var run := s.runs[r];
    if run.pc.Saving? then s.rows[run.pc.write.id := run.pc.write] else s.rows
  }

  /** The claims that are still to be sent. */
  function Unsent(s: State, r: RunId): seq<Message>
    requires r in s.runs
  {
    var run := s.runs[r];
    if run.pc.Saving? && run.claimed != [] then run.claimed[1..] else run.claimed
  }

  /** The table as it will be when the run is done, if it is left alone and gets these replies. */
  ghost function Ahead(s: State, r: RunId, reply: Id -> Reply): Table
    requires r in s.runs
  {
    Settled(BaseRows(s, r), Unsent(s, r), reply)
  }

  /** The reply a step delivers, if any. */
  function ReplyOf(step: Step): Option<Reply> {
    match step
    case ReplyOk(_) => Some(Accepted)
    case ReplyError(_, e) => Some(Rejected(e))
    case _ => None
  }

  lemma LoopStep(s: State, r: RunId, step: Step)
    requires InLoop(s, r) && Enabled(s, step) && OwnStep(step, r)
    ensures InLoop(Apply(s, step), r)
    ensures var s' := Apply(s, step);
            match ReplyOf(step)
            case None => BaseRows(s', r) == BaseRows(s, r) && Unsent(s', r) == Unsent(s, r)
            case Some(reply) =>
              && BaseRows(s, r) == s.rows && Unsent(s, r) == s.runs[r].claimed && s.runs[r].claimed != []
              && BaseRows(s', r) == s.rows[s.runs[r].claimed[0].id := Settle(s.runs[r].claimed[0], reply)]
              && Unsent(s', r) == s.runs[r].claimed[1..]
  {
    if step.SaveOk? {
      SavedInLoop(s, r);
    }
  }

  lemma SavedInLoop(s: State, r: RunId)
    requires InLoop(s, r) && Enabled(s, SaveOk(r))
    ensures InLoop(SaveOkStep(s, r), r)
  {
    var claimed := s.runs[r].claimed;
    assert forall i :: 0 <= i < |claimed[1..]| ==> claimed[1..][i] == claimed[i + 1] && claimed[i + 1].id != claimed[0].id;
  }

  /** Some reply function makes the table ahead the same before and after a step of the run. */
  lemma AheadKept(s: State, r: RunId, step: Step, rest: Id -> Reply) returns (reply: Id -> Reply)
    requires InLoop(s, r) && Enabled(s, step) && OwnStep(step, r)
    ensures InLoop(Apply(s, step), r) && Ahead(s, r, reply) == Ahead(Apply(s, step), r, rest)
  {
    LoopStep(s, r, step);
    reply := rest;
    if ReplyOf(step).Some? {
      var id, first := s.runs[r].claimed[0].id, ReplyOf(step).value;
      reply := (x: Id) => if x == id then first else rest(x);
      SettledCons(s.rows, s.runs[r].claimed, first, rest, reply);
    }
  }

  lemma UnsentAreProcessing(s: State, r: RunId)
    requires InLoop(s, r)
    ensures forall id :: HasId(Unsent(s, r), id) ==> id in s.rows && s.rows[id].status == Processing
    ensures s.runs[r].pc.Saving? ==> s.runs[r].pc.write.id in s.rows && s.rows[s.runs[r].pc.write.id].status == Processing
  {
    assert forall m <- Unsent(s, r) :: m in s.runs[r].claimed;
  }

  /** The table ahead differs from the table only in claimed rows, which are PROCESSING there. */
  lemma AheadAgrees(s: State, r: RunId, reply: Id -> Reply)
    requires InLoop(s, r)
    ensures Ahead(s, r, reply).Keys == s.rows.Keys
    ensures forall id <- s.rows :: s.rows[id].status != Processing ==> Ahead(s, r, reply)[id] == s.rows[id]
  {
    UnsentAreProcessing(s, r);
  }

  /** The step of a user writes m to row x, and would in every table that agrees on x. */
  ghost predicate Writes(s: State, s': State, u: Ticks.UserEvent, x: Id, m: Message) {
    && s'.rows == s.rows[x := m] && s'.runs == s.runs && s'.clock == s.clock
    && (x in s.rows ==> s.rows[x].status == Pending)
    && forall rows: Table :: (x in rows <==> x in s.rows) && (x in rows ==> rows[x] == s.rows[x]) ==>
         Ticks.UserCan(rows, u) && Ticks.UserNext(rows, u) == rows[x := m]
  }

  lemma CreateWrites(s: State, id: Id, userId: string, dto: CreateDto) returns (m: Message)
    requires id !in s.rows && CreateStep(s, id, userId, dto).rows != s.rows
    ensures Writes(s, CreateStep(s, id, userId, dto), Ticks.Created(s.clock, id, userId, dto), id, m)
  {
    m := NewMessage(id, userId, dto, s.clock).value;
  }

  lemma UserOpWrites(s: State, id: Id, userId: string, op: UserOp) returns (m: Message)
    requires UserStep(s, id, userId, op).rows != s.rows
    ensures Writes(s, UserStep(s, id, userId, op), UserOf(s, User(id, userId, op)), id, m)
  {
    m := UserResult(s, id, userId, op).value;
  }

  lemma SavedWrites(s: State, d: DraftId) returns (m: Message)
    requires Inv(s) && d in s.drafts && Careful(s, SaveDraft(d))
    ensures Writes(s, SaveDraftStep(s, d), UserOf(s, SaveDraft(d)), s.drafts[d].seen.id, m)
  {
    m := s.drafts[d].write;
    assert DraftOk(s, s.drafts[d]);
  }

  /** What a user operation that succeeds writes. */
  lemma UserWrites(s: State, step: Step) returns (m: Message)
    requires Inv(s) && Enabled(s, step) && IsUserStep(step) && Careful(s, step) && Apply(s, step).rows != s.rows
    ensures Writes(s, Apply(s, step), UserOf(s, step), Target(s, step), m)
  {
    if step.Create? {
      m := CreateWrites(s, step.id, step.userId, step.create);
    } else if step.User? {
      m := UserOpWrites(s, step.id, step.userId, step.op);
    } else {
      m := SavedWrites(s, step.draft);
    }
  }

  /** Writing a row outside the batch commutes with settling the batch. */
  lemma SettledBeside(rows: Table, batch: seq<Message>, reply: Id -> Reply, x: Id, m: Message)
    requires !HasId(batch, x)
    ensures Settled(rows[x := m], batch, reply) == Settled(rows, batch, reply)[x := m]
  {
  }

  /** So a user operation that succeeds does to the table ahead what it does to the table. */
  lemma AheadWritten(s: State, r: RunId, s': State, x: Id, m: Message, reply: Id -> Reply)
    requires InLoop(s, r) && s'.runs == s.runs && s'.rows == s.rows[x := m]
    requires x in s.rows ==> s.rows[x].status == Pending
    ensures InLoop(s', r) && Ahead(s', r, reply) == Ahead(s, r, reply)[x := m]
  {
    UnsentAreProcessing(s, r);
    SettledBeside(BaseRows(s, r), Unsent(s, r), reply, x, m);
    assert BaseRows(s', r) == BaseRows(s, r)[x := m];
  }

  lemma UserBesideLoop(s: State, r: RunId, step: Step, reply: Id -> Reply)
    requires Inv(s) && InLoop(s, r) && Enabled(s, step) && IsUserStep(step) && Careful(s, step)
    ensures InLoop(Apply(s, step), r) && Apply(s, step).clock == s.clock
    ensures var s', u, rows := Apply(s, step), UserOf(s, step), Ahead(s, r, reply);
            if s'.rows == s.rows then Ahead(s', r, reply) == rows
            else
              && Ticks.UserCan(rows, u) && Ahead(s', r, reply) == Ticks.UserNext(rows, u)
              && forall id :: Ticks.Unmoved(s.rows, s'.rows, id) ==> Ticks.Unmoved(rows, Ticks.UserNext(rows, u), id)
  {
    UserLeavesRuns(s, step);
    if Apply(s, step).rows == s.rows {
      AheadSame(s, Apply(s, step), r, reply);
    } else {
      var m := UserWrites(s, step);
      WrittenAhead(s, Apply(s, step), r, UserOf(s, step), Target(s, step), m, reply);
    }
  }

  lemma UserStaysInLoop(s: State, r: RunId, step: Step)
    requires Inv(s) && InLoop(s, r) && Enabled(s, step) && IsUserStep(step) && Careful(s, step)
    ensures InLoop(Apply(s, step), r)
  {
    UserBesideLoop(s, r, step, _ => Accepted);
  }

  lemma WrittenAhead(s: State, s': State, r: RunId, u: Ticks.UserEvent, x: Id, m: Message, reply: Id -> Reply)
    requires InLoop(s, r) && Writes(s, s', u, x, m)
    ensures InLoop(s', r)
    ensures var rows := Ahead(s, r, reply);
            && Ticks.UserCan(rows, u) && Ahead(s', r, reply) == Ticks.UserNext(rows, u)
            && forall id :: Ticks.Unmoved(s.rows, s'.rows, id) ==> Ticks.Unmoved(rows, Ticks.UserNext(rows, u), id)
  {
    AheadAgrees(s, r, reply);
    AheadWritten(s, r, s', x, m, reply);
    UnmovedAlike(s.rows, s'.rows, Ahead(s, r, reply), Ticks.UserNext(Ahead(s, r, reply), u), x, m);
  }

  lemma AheadSame(s: State, s': State, r: RunId, reply: Id -> Reply)
    requires InLoop(s, r) && s'.rows == s.rows && s'.runs == s.runs
    ensures InLoop(s', r) && Ahead(s', r, reply) == Ahead(s, r, reply)
  {
  }

  /** A write moves a row alike in two tables that agree on it. */
  lemma UnmovedAlike(a: Table, a': Table, b: Table, b': Table, x: Id, m: Message)
    requires (x in b <==> x in a) && (x in b ==> b[x] == a[x]) && a' == a[x := m] && b' == b[x := m]
    ensures forall id :: Ticks.Unmoved(a, a', id) ==> Ticks.Unmoved(b, b', id)
  {
  }

  /** The rest of the run settles the claims and lets the users act. */
  ghost predicate LoopEnds(s: State, r: RunId, steps: seq<Step>, reply: Id -> Reply, users: seq<Ticks.UserEvent>)
    requires r in s.runs && Valid(s, steps)
  {
    var rows := Ahead(s, r, reply);
    && Ticks.UserHistory(rows, users) && Ticks.UserFinal(rows, users) == After(s, steps).rows
    && Ticks.UsersNotBefore(users, s.clock) && Ticks.LateIds(users) <= LateRows(s, steps)
    && forall id :: StepsLeave(s, steps, id) ==> Ticks.UsersLeave(rows, users, id)
  }

  lemma LoopUser(s: State, r: RunId, steps: seq<Step>, reply: Id -> Reply, rest: seq<Ticks.UserEvent>)
    returns (users: seq<Ticks.UserEvent>)
    requires Inv(s) && InLoop(s, r) && steps != [] && Valid(s, steps) && IsUserStep(steps[0]) && Careful(s, steps[0])
    requires r in Apply(s, steps[0]).runs && LoopEnds(Apply(s, steps[0]), r, steps[1..], reply, rest)
    ensures LoopEnds(s, r, steps, reply, users)
  {
    UserBesideLoop(s, r, steps[0], reply);
    if Apply(s, steps[0]).rows == s.rows {
      users := rest;
    } else {
      UserStepIsEvent(s, steps[0]);
      users := UserFirst(UserOf(s, steps[0]), rest);
    }
  }

  /** One user event before others. */
  lemma UserFirst(u: Ticks.UserEvent, rest: seq<Ticks.UserEvent>) returns (users: seq<Ticks.UserEvent>)
    ensures users == [u] + rest && users[1..] == rest && Ticks.LateIds(users) == Ticks.LateIds([u]) + Ticks.LateIds(rest)
  {
    users := [u] + rest;
    assert forall v :: v in users <==> v in [u] || v in rest;
  }

  lemma LoopOwn(s: State, r: RunId, steps: seq<Step>, rest: Id -> Reply, users: seq<Ticks.UserEvent>)
    returns (reply: Id -> Reply)
    requires InLoop(s, r) && steps != [] && Valid(s, steps) && OwnStep(steps[0], r)
    requires r in Apply(s, steps[0]).runs && LoopEnds(Apply(s, steps[0]), r, steps[1..], rest, users)
    requires s.clock <= Apply(s, steps[0]).clock
    ensures LoopEnds(s, r, steps, reply, users)
  {
    reply := AheadKept(s, r, steps[0], rest);
  }

  lemma {:induction false} CalmLoop(s: State, r: RunId, steps: seq<Step>)
    returns (reply: Id -> Reply, users: seq<Ticks.UserEvent>)
    requires Inv(s) && InLoop(s, r) && Valid(s, steps) && Calm(s, steps, r) && EndsIn(s, steps, r)
    ensures LoopEnds(s, r, steps, reply, users)
    decreases |steps|
  {
    reply, users := _ => Accepted, [];
    if steps == [] {
      assert Ahead(s, r, reply) == s.rows;
    } else {
      CalmTail(s, r, steps);
      CalmStepKeeps(s, steps[0], r);
      if Idle(s, steps[0]) {
        reply, users := CalmLoop(Apply(s, steps[0]), r, steps[1..]);
      } else if IsUserStep(steps[0]) {
        UserStaysInLoop(s, r, steps[0]);
        reply, users := CalmLoop(Apply(s, steps[0]), r, steps[1..]);
        users := LoopUser(s, r, steps, reply, users);
      } else {
        LoopStep(s, r, steps[0]);
        reply, users := CalmLoop(Apply(s, steps[0]), r, steps[1..]);
        reply := LoopOwn(s, r, steps, reply, users);
      }
    }
  }

  // ---------------------------------------------------------------- one whole run

  /** Events that account for the steps: same table in the end, no row disturbed that they leave, none late that they do not move. */
  ghost predicate AccountFor(s: State, steps: seq<Step>, events: seq<Ticks.Event>, time: int)
    requires Valid(s, steps)
  {
    && Ticks.History(s.rows, events) && Ticks.Final(s.rows, events) == After(s, steps).rows
    && Ticks.NotBefore(events, time) && Ticks.Late(events) <= LateRows(s, steps)
    && forall id :: StepsLeave(s, steps, id) ==> Ticks.Undisturbed(s.rows, events, id)
  }

  function UserEvents(users: seq<Ticks.UserEvent>): seq<Ticks.Event> {
    if users == [] then [] else [Ticks.UserDone(users[0])] + UserEvents(users[1..])
  }

  lemma {:induction false} UserEventsAre(rows: Table, users: seq<Ticks.UserEvent>, time: int)
    requires Ticks.UserHistory(rows, users) && Ticks.UsersNotBefore(users, time)
    ensures var events := UserEvents(users);
            && Ticks.History(rows, events) && Ticks.Final(rows, events) == Ticks.UserFinal(rows, users)
            && Ticks.Runs(events) == 0 && Ticks.NotBefore(events, time) && Ticks.Late(events) == Ticks.LateIds(users)
            && forall id :: Ticks.UsersLeave(rows, users, id) ==> Ticks.Undisturbed(rows, events, id)
    decreases |users|
  {
    if users != [] {
      assert users[0] in users;
      UserEventsAre(Ticks.UserNext(rows, users[0]), users[1..], time);
      assert UserEvents(users)[1..] == UserEvents(users[1..]);
      var same := UserFirst(users[0], users[1..]);
      assert same == users;
    }
  }

  /** One event before others. */
  lemma EventFirst(rows: Table, e: Ticks.Event, rest: seq<Ticks.Event>)
    requires Ticks.CanHappen(rows, e) && Ticks.History(Ticks.Next(rows, e), rest)
    ensures var events := [e] + rest;
            && Ticks.History(rows, events) && Ticks.Final(rows, events) == Ticks.Final(Ticks.Next(rows, e), rest)
            && Ticks.Runs(events) == (if e.RunDone? then 1 else 0) + Ticks.Runs(rest)
            && Ticks.Late(events) == Ticks.LateIdsOf(e) + Ticks.Late(rest)
    ensures forall id :: Ticks.EventLeaves(rows, e, id) && Ticks.Undisturbed(Ticks.Next(rows, e), rest, id) ==>
              Ticks.Undisturbed(rows, [e] + rest, id)
  {
    assert ([e] + rest)[1..] == rest;
  }

  lemma ClaimEntersLoop(s: State, r: RunId, batch: seq<Message>)
    requires r in s.runs && Keyed(s.rows) && Enabled(s, Claim(r, batch))
    ensures var s' := ClaimStep(s, r, batch);
            InLoop(s', r) && BaseRows(s', r) == ClaimRows(s.rows, s.runs[r].pc.candidates) && Unsent(s', r) == batch
  {
    var s' := ClaimStep(s, r, batch);
    forall i | 0 <= i < |batch| ensures batch[i].id in s'.rows && s'.rows[batch[i].id] == batch[i] {
      assert Claimable(s.rows, batch[i].id, s.runs[r].pc.candidates);
    }
  }

  /** From the selection on: users, the claim, then the replies with users in between. */
  ghost predicate ClaimEnds(
    s: State, r: RunId, steps: seq<Step>,
    meanwhile: seq<Ticks.UserEvent>, reply: Id -> Reply, users: seq<Ticks.UserEvent>)
    requires r in s.runs && s.runs[r].pc.Claiming? && Valid(s, steps)
  {
    var rows := Ticks.Tick(Ticks.UserFinal(s.rows, meanwhile), s.runs[r].pc.candidates, reply);
    && Ticks.UserHistory(s.rows, meanwhile) && Ticks.UsersNotBefore(meanwhile, s.clock)
    && Ticks.UserHistory(rows, users) && Ticks.UserFinal(rows, users) == After(s, steps).rows
    && Ticks.UsersNotBefore(users, s.clock)
    && Ticks.LateIds(meanwhile) + Ticks.LateIds(users) <= LateRows(s, steps)
    && forall id :: StepsLeave(s, steps, id) ==>
         Ticks.UsersLeave(s.rows, meanwhile, id) && Ticks.UsersLeave(rows, users, id)
  }

  lemma {:induction false} CalmClaim(s: State, r: RunId, steps: seq<Step>)
    returns (meanwhile: seq<Ticks.UserEvent>, reply: Id -> Reply, users: seq<Ticks.UserEvent>)
    requires Inv(s) && r in s.runs && s.runs[r].pc.Claiming?
    requires Valid(s, steps) && Calm(s, steps, r) && EndsIn(s, steps, r)
    ensures ClaimEnds(s, r, steps, meanwhile, reply, users)
    decreases |steps|
  {
    CalmTail(s, r, steps);
    CalmStepKeeps(s, steps[0], r);
    if steps[0].Claim? {
      meanwhile := [];
      reply, users := FromClaim(s, r, steps);
    } else {
      StillClaiming(s, r, steps[0]);
      meanwhile, reply, users := CalmClaim(Apply(s, steps[0]), r, steps[1..]);
      if IsUserStep(steps[0]) {
        meanwhile := ClaimUser(s, r, steps, meanwhile, reply, users);
      }
    }
  }

  lemma StillClaiming(s: State, r: RunId, step: Step)
    requires r in s.runs && s.runs[r].pc.Claiming? && Enabled(s, step) && !step.Claim?
    requires Beside(s, step) || OwnStep(step, r)
    ensures Apply(s, step).runs == s.runs && (Idle(s, step) || IsUserStep(step))
  {
    if Idle(s, step) {
      IdleEffect(s, step);
    }
  }

  lemma FromClaim(s: State, r: RunId, steps: seq<Step>) returns (reply: Id -> Reply, users: seq<Ticks.UserEvent>)
    requires Inv(s) && r in s.runs && s.runs[r].pc.Claiming? && steps != [] && steps[0].Claim? && steps[0].run == r
    requires Valid(s, steps) && Calm(s, steps, r) && EndsIn(s, steps, r)
    ensures ClaimEnds(s, r, steps, [], reply, users)
  {
    var s' := ClaimStep(s, r, steps[0].batch);
    CalmTail(s, r, steps);
    CalmStepKeeps(s, steps[0], r);
    InvQualifies(s);
    ClaimEntersLoop(s, r, steps[0].batch);
    reply, users := CalmLoop(s', r, steps[1..]);
    ClaimThenSettle(s.rows, s.runs[r].pc.candidates, steps[0].batch, reply);
  }

  lemma ClaimUser(
    s: State, r: RunId, steps: seq<Step>,
    rest: seq<Ticks.UserEvent>, reply: Id -> Reply, users: seq<Ticks.UserEvent>)
    returns (meanwhile: seq<Ticks.UserEvent>)
    requires Inv(s) && r in s.runs && s.runs[r].pc.Claiming? && steps != [] && Valid(s, steps)
    requires IsUserStep(steps[0]) && Careful(s, steps[0]) && Apply(s, steps[0]).runs == s.runs
    requires ClaimEnds(Apply(s, steps[0]), r, steps[1..], rest, reply, users)
    ensures ClaimEnds(s, r, steps, meanwhile, reply, users)
  {
    UserLeavesRuns(s, steps[0]);
    UserStepIsEvent(s, steps[0]);
    meanwhile := UserFirst(UserOf(s, steps[0]), rest);
  }

  /** Run r holds the lock and has not selected yet. */
  predicate BeforeSelect(s: State, r: RunId) {
    r in s.runs && (s.runs[r].pc.Started? || s.runs[r].pc.Selecting?)
  }

  /** The clock the run's select uses is not before this. */
  function SelectNotBefore(s: State, r: RunId): int
    requires r in s.runs
  {
    match s.runs[r].pc
    case Selecting(now) => now
    case _ => s.clock
  }

  lemma SelectBeforeClock(s: State, r: RunId)
    requires Inv(s) && r in s.runs
    ensures SelectNotBefore(s, r) <= s.clock
  {
    assert RunOk(s, r);
  }

  /** The steps of a run from its start are one run event among user events. */
  lemma {:induction false} CalmRun(s: State, r: RunId, steps: seq<Step>) returns (events: seq<Ticks.Event>)
    requires Inv(s) && BeforeSelect(s, r) && Valid(s, steps) && Calm(s, steps, r) && EndsIn(s, steps, r)
    ensures AccountFor(s, steps, events, SelectNotBefore(s, r)) && Ticks.Runs(events) == 1
    decreases |steps|
  {
    CalmTail(s, r, steps);
    CalmStepKeeps(s, steps[0], r);
    SelectBeforeClock(s, r);
    if steps[0].Select? {
      events := FromSelect(s, r, steps);
    } else {
      StillBeforeSelect(s, r, steps[0]);
      events := CalmRun(Apply(s, steps[0]), r, steps[1..]);
      if IsUserStep(steps[0]) {
        events := AccountUser(s, steps, events, SelectNotBefore(s, r));
      } else {
        AccountIdle(s, steps, events, SelectNotBefore(s, r));
      }
    }
  }

  lemma StillBeforeSelect(s: State, r: RunId, step: Step)
    requires BeforeSelect(s, r) && SelectNotBefore(s, r) <= s.clock && Enabled(s, step) && !step.Select?
    requires Beside(s, step) || OwnStep(step, r)
    ensures var s' := Apply(s, step);
            && BeforeSelect(s', r) && SelectNotBefore(s, r) <= SelectNotBefore(s', r)
            && (!IsUserStep(step) ==> s'.rows == s.rows)
  {
    if Idle(s, step) {
      IdleEffect(s, step);
    } else if IsUserStep(step) {
      UserLeavesRuns(s, step);
    } else {
      assert step.ReadClock?;
    }
  }

  /** A step that leaves the table before steps that are accounted for. */
  lemma AccountIdle(s: State, steps: seq<Step>, events: seq<Ticks.Event>, time: int)
    requires steps != [] && Valid(s, steps) && !IsUserStep(steps[0]) && Apply(s, steps[0]).rows == s.rows
    requires exists time' :: time <= time' && AccountFor(Apply(s, steps[0]), steps[1..], events, time')
    ensures AccountFor(s, steps, events, time)
  {
    var time' :| time <= time' && AccountFor(Apply(s, steps[0]), steps[1..], events, time');
    LaterStill(events, time', time);
  }

  /** A user step before steps that are accounted for. */
  lemma AccountUser(s: State, steps: seq<Step>, rest: seq<Ticks.Event>, time: int) returns (events: seq<Ticks.Event>)
    requires Inv(s) && steps != [] && Valid(s, steps) && IsUserStep(steps[0]) && Careful(s, steps[0]) && time <= s.clock
    requires exists time' :: time <= time' && AccountFor(Apply(s, steps[0]), steps[1..], rest, time')
    ensures AccountFor(s, steps, events, time) && Ticks.Runs(events) == Ticks.Runs(rest)
  {
    var time' :| time <= time' && AccountFor(Apply(s, steps[0]), steps[1..], rest, time');
    LaterStill(rest, time', time);
    UserStepIsEvent(s, steps[0]);
    EventFirst(s.rows, Ticks.UserDone(UserOf(s, steps[0])), rest);
    events := [Ticks.UserDone(UserOf(s, steps[0]))] + rest;
  }

  lemma FromSelect(s: State, r: RunId, steps: seq<Step>) returns (events: seq<Ticks.Event>)
    requires Inv(s) && BeforeSelect(s, r) && steps != [] && steps[0].Select? && steps[0].run == r
    requires Valid(s, steps) && Calm(s, steps, r) && EndsIn(s, steps, r)
    ensures AccountFor(s, steps, events, SelectNotBefore(s, r)) && Ticks.Runs(events) == 1
  {
    SelectBeforeClock(s, r);
    var now, ids := s.runs[r].pc.now, steps[0].ids;
    var meanwhile, reply, users := AfterSelect(s, r, steps);
    var e := Ticks.RunDone(now, ids, meanwhile, reply);
    UserEventsAre(Ticks.Next(s.rows, e), users, now);
    EventFirst(s.rows, e, UserEvents(users));
    events := [e] + UserEvents(users);
  }

  lemma AfterSelect(s: State, r: RunId, steps: seq<Step>)
    returns (meanwhile: seq<Ticks.UserEvent>, reply: Id -> Reply, users: seq<Ticks.UserEvent>)
    requires Inv(s) && r in s.runs && steps != [] && steps[0].Select? && steps[0].run == r
    requires Valid(s, steps) && Calm(s, steps, r) && EndsIn(s, steps, r)
    ensures var rows := Ticks.Tick(Ticks.UserFinal(s.rows, meanwhile), steps[0].ids, reply);
            && Ticks.UserHistory(s.rows, meanwhile) && Ticks.UsersNotBefore(meanwhile, s.clock)
            && Ticks.UserHistory(rows, users) && Ticks.UserFinal(rows, users) == After(s, steps).rows
            && Ticks.UsersNotBefore(users, s.clock)
            && Ticks.LateIds(meanwhile) + Ticks.LateIds(users) <= LateRows(s, steps)
            && forall id :: StepsLeave(s, steps, id) ==>
                 Ticks.UsersLeave(s.rows, meanwhile, id) && Ticks.UsersLeave(rows, users, id)
  {
    var s' := SelectStep(s, r, steps[0].ids);
    CalmTail(s, r, steps);
    CalmStepKeeps(s, steps[0], r);
    if steps[0].ids == [] {
      meanwhile := [];
      NothingSelected(s, r);
      reply, users := CalmLoop(s', r, steps[1..]);
      NothingSettled(s.rows, reply);
    } else {
      meanwhile, reply, users := CalmClaim(s', r, steps[1..]);
    }
  }

  lemma NothingSelected(s: State, r: RunId)
    requires Inv(s) && Enabled(s, Select(r, []))
    ensures InLoop(SelectStep(s, r, []), r)
  {
    assert RunOk(s, r);
  }

  lemma NothingSettled(rows: Table, reply: Id -> Reply)
    ensures Settled(rows, [], reply) == rows && Ticks.Tick(rows, [], reply) == rows
  {
  }

  // ---------------------------------------------------------------- histories of runs and user operations

  /** One thing after another: a whole run with users acting beside it, or a user operation, or time passing. */
  datatype Block = RunBlock(run: RunId, pod: Pod, steps: seq<Step>) | Between(step: Step)

  function StepsOf(b: Block): seq<Step> {
    match b
    case RunBlock(r, pod, steps) => [Acquire(r, pod)] + steps
    case Between(step) => [step]
  }

  /** The block can be taken from s: a run gets the lock, is calm, and ends. */
  ghost predicate Takes(s: State, b: Block) {
    && Valid(s, StepsOf(b))
    && match b
       case RunBlock(r, _, steps) => !LockLive(s) && Calm(Apply(s, Acquire(r, b.pod)), StepsOf(b)[1..], r) && EndsIn(s, StepsOf(b), r)
       case Between(step) => Beside(s, step)
  }

  ghost predicate CalmHistory(s: State, blocks: seq<Block>)
    decreases |blocks|
  {
    blocks == [] || (Takes(s, blocks[0]) && CalmHistory(After(s, StepsOf(blocks[0])), blocks[1..]))
  }

  ghost function AfterBlocks(s: State, blocks: seq<Block>): State
    requires CalmHistory(s, blocks)
    decreases |blocks|
  {
    if blocks == [] then s else AfterBlocks(After(s, StepsOf(blocks[0])), blocks[1..])
  }

  function RunCount(blocks: seq<Block>): nat
    decreases |blocks|
  {
    if blocks == [] then 0 else (if blocks[0].RunBlock? then 1 else 0) + RunCount(blocks[1..])
  }

  /** No user of the history cancels or reschedules row id. */
  ghost predicate LeavesAlone(s: State, blocks: seq<Block>, id: Id)
    requires CalmHistory(s, blocks)
    decreases |blocks|
  {
    blocks == [] ||
    (StepsLeave(s, StepsOf(blocks[0]), id) && LeavesAlone(After(s, StepsOf(blocks[0])), blocks[1..], id))
  }

  /** The rows the history moves to a time already reached. */
  ghost function LateInHistory(s: State, blocks: seq<Block>): set<Id>
    requires CalmHistory(s, blocks)
    decreases |blocks|
  {
    if blocks == [] then {}
    else LateRows(s, StepsOf(blocks[0])) + LateInHistory(After(s, StepsOf(blocks[0])), blocks[1..])
  }

  lemma RunBlockIsEvents(s: State, b: Block) returns (events: seq<Ticks.Event>)
    requires b.RunBlock? && Takes(s, b) && Inv(s)
    ensures AccountFor(s, StepsOf(b), events, s.clock) && Ticks.Runs(events) == 1
  {
    var s1, steps := Apply(s, Acquire(b.run, b.pod)), StepsOf(b);
    assert steps[0] == Acquire(b.run, b.pod);
    StepKeepsInv(s, steps[0]);
    events := CalmRun(s1, b.run, steps[1..]);
  }

  lemma BlockIsEvents(s: State, b: Block) returns (events: seq<Ticks.Event>)
    requires Takes(s, b) && Inv(s)
    ensures AccountFor(s, StepsOf(b), events, s.clock) && Ticks.Runs(events) == if b.RunBlock? then 1 else 0
  {
    if b.RunBlock? {
      events := RunBlockIsEvents(s, b);
    } else {
      One(s, b.step);
      events := [];
      if IsUserStep(b.step) {
        assert AccountFor(Apply(s, b.step), [], [], s.clock);
        assert [b.step][1..] == [];
        events := AccountUser(s, [b.step], [], s.clock);
      }
    }
  }

  lemma {:induction false} CalmKeepsInv(s: State, steps: seq<Step>, r: RunId)
    requires Inv(s) && Valid(s, steps) && Calm(s, steps, r)
    ensures Inv(After(s, steps)) && s.clock <= After(s, steps).clock
    decreases |steps|
  {
    if steps != [] {
      CalmStepKeeps(s, steps[0], r);
      CalmKeepsInv(Apply(s, steps[0]), steps[1..], r);
    }
  }

  lemma BlockKeepsInv(s: State, b: Block)
    requires Takes(s, b) && Inv(s)
    ensures Inv(After(s, StepsOf(b))) && s.clock <= After(s, StepsOf(b)).clock
  {
    if b.RunBlock? {
      StepKeepsInv(s, Acquire(b.run, b.pod));
      assert StepsOf(b)[0] == Acquire(b.run, b.pod);
      CalmKeepsInv(AcquireLock(s, b.run, b.pod), StepsOf(b)[1..], b.run);
    } else {
      One(s, b.step);
      CalmStepKeeps(s, b.step, 0);
    }
  }

  /** A calm history of the machine is a history of the table, run for run. */
  lemma {:induction false} CalmHistoryIsHistory(s: State, blocks: seq<Block>) returns (events: seq<Ticks.Event>)
    requires CalmHistory(s, blocks) && Inv(s)
    ensures Ticks.History(s.rows, events) && Ticks.Final(s.rows, events) == AfterBlocks(s, blocks).rows
    ensures Ticks.Runs(events) == RunCount(blocks) && Ticks.NotBefore(events, s.clock)
    ensures Ticks.Late(events) <= LateInHistory(s, blocks)
    ensures forall id :: LeavesAlone(s, blocks, id) ==> Ticks.Undisturbed(s.rows, events, id)
    decreases |blocks|
  {
    events := [];
    if blocks != [] {
      var b := blocks[0];
      var first := BlockIsEvents(s, b);
      BlockKeepsInv(s, b);
      var rest := CalmHistoryIsHistory(After(s, StepsOf(b)), blocks[1..]);
      HistoryJoin(s.rows, first, rest);
      LaterStill(rest, After(s, StepsOf(b)).clock, s.clock);
      events := first + rest;
    }
  }

  lemma LaterStill(events: seq<Ticks.Event>, time: int, earlier: int)
    requires Ticks.NotBefore(events, time) && earlier <= time
    ensures Ticks.NotBefore(events, earlier)
  {
    forall e <- events ensures Ticks.EventNotBefore(e, earlier) {
      assert Ticks.EventNotBefore(e, time);
    }
  }

  lemma {:induction false} HistoryJoin(rows: Table, first: seq<Ticks.Event>, rest: seq<Ticks.Event>)
    requires Ticks.History(rows, first) && Ticks.History(Ticks.Final(rows, first), rest)
    ensures Ticks.History(rows, first + rest)
    ensures Ticks.Final(rows, first + rest) == Ticks.Final(Ticks.Final(rows, first), rest)
    ensures Ticks.Runs(first + rest) == Ticks.Runs(first) + Ticks.Runs(rest)
    ensures Ticks.Late(first + rest) == Ticks.Late(first) + Ticks.Late(rest)
    ensures forall id :: Ticks.Undisturbed(rows, first, id) && Ticks.Undisturbed(Ticks.Final(rows, first), rest, id) ==>
              Ticks.Undisturbed(rows, first + rest, id)
    decreases |first|
  {
    if first == [] {
      assert first + rest == rest;
    } else {
      var e := first[0];
      HistoryJoin(Ticks.Next(rows, e), first[1..], rest);
      EventFirst(rows, e, first[1..] + rest);
      assert first + rest == [e] + (first[1..] + rest);
    }
  }

  // ---------------------------------------------------------------- progress of the machine

  /** The same bounds with fewer late rows. */
  lemma FewerLate(a: set<Id>, b: set<Id>, c: set<Id>)
    requires b <= c
    ensures |a + b| <= |a + c| && forall id :: |a + b - {id}| <= |a + c - {id}|
  {
    SubsetSize(a + b, a + c);
    forall id ensures |a + b - {id}| <= |a + c - {id}| {
      SubsetSize(a + b - {id}, a + c - {id});
    }
  }

  /**
   From any reachable state, with n rows PENDING and due or moved to a time already reached meanwhile, after
   n / 25 + 4 calm runs, whatever users do between them and during them and whatever the replies, none of
   them is PENDING and due any more but those moved late, and those no user cancelled or rescheduled are
   SENT or FAILED.
   */
  lemma MachineDrains(s: State, blocks: seq<Block>)
    requires Reachable(s) && CalmHistory(s, blocks)
    requires RunCount(blocks) >= |Ticks.Backlog(s.rows, s.clock) + LateInHistory(s, blocks)| / 25 + 4
    ensures var s' := AfterBlocks(s, blocks);
            && Ticks.Backlog(s'.rows, s.clock) <= LateInHistory(s, blocks)
            && forall id <- Ticks.Backlog(s.rows, s.clock) :: LeavesAlone(s, blocks, id) ==>
                 id in s'.rows && s'.rows[id].status in {Sent, Failed}
  {
    ReachableInv(s);
    InvQualifies(s);
    var events := CalmHistoryIsHistory(s, blocks);
    FewerLate(Ticks.Backlog(s.rows, s.clock), Ticks.Late(events), LateInHistory(s, blocks));
    Ticks.DrainBound(s.rows, events, s.clock);
  }

  /**
   From any reachable state, a due PENDING row that no user cancels or reschedules, with k other rows
   PENDING and scheduled no later or moved to a time already reached meanwhile, is no longer an unclaimed
   row at its retry count after k / 25 + 1 calm runs: it was claimed.
   */
  lemma MachineDoesNotStarve(s: State, blocks: seq<Block>, id: Id)
    requires Reachable(s) && CalmHistory(s, blocks) && LeavesAlone(s, blocks, id)
    requires id in s.rows && s.rows[id].status == Pending && s.rows[id].scheduledAt <= s.clock
    requires RunCount(blocks) >= |Ticks.Backlog(s.rows, s.rows[id].scheduledAt) + LateInHistory(s, blocks) - {id}| / 25 + 1
    ensures var s' := AfterBlocks(s, blocks);
            id in s'.rows && (s'.rows[id].status in {Sent, Failed} || s'.rows[id].retryCount > s.rows[id].retryCount)
  {
    ReachableInv(s);
    InvQualifies(s);
    var events := CalmHistoryIsHistory(s, blocks);
    var time := s.rows[id].scheduledAt;
    LaterStill(events, s.clock, time);
    FewerLate(Ticks.Backlog(s.rows, time), Ticks.Late(events), LateInHistory(s, blocks));
    Ticks.BoundedOvertaking(s.rows, events, id);
    Ticks.PickedIsClaimed(s.rows, events, id);
  }
}
