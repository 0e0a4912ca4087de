/**
 The delivery protocol as a step machine: any number of cron runs on any number of pods, one Redis
 lock, one table, a shared clock, and users creating, updating and cancelling messages.

 A run is one invocation of `processDueMessages`, not one pod: the cron decorator starts a new
 invocation every minute whether or not the previous one has finished.  The lock owner is the pod.

 Named assumptions of the model:
  - each repository call, Redis call and user operation takes effect at once; a failed save, select
    or claim leaves the table as it was;
  - an update or cancel is either one step (`User`) or, as in the code, a read and a later save (`ReadDraft`,
    `SaveDraft`); in the second form the safety theorems ask that the save finds the row as it was read
    (`Careful`), and a concrete run shows that they need it.
 */
module Protocol {
  import opened Wrappers
  import opened Messages

  type RunId = nat
  type Pod = nat
  type DraftId = nat

  datatype Lease = Lease(owner: Pod, expiry: int)

  /** Where one invocation of `processDueMessages` stands. */
  datatype Pc =
    | Started                                       // lock acquired
    | Selecting(now: int)                           // clock read, about to select
    | Claiming(now: int, candidates: seq<Id>)       // selected, about to claim
    | Sending                                       // at the head of the loop
    | Awaiting(delivered: bool)                     // send in flight for the first claimed message
    | Saving(write: Message)                        // about to save the first claimed message
    | Releasing                                     // in `finally`
    | Ended

  /** What the select saw of one candidate. */
  datatype Sighting = Sighting(scheduledAt: int, reschedules: nat, stale: nat)

  datatype Run = Run(
    pod: Pod,
    expiry: int,               // when its lease runs out
    released: bool,            // the release script ran for it
    pc: Pc,
    now: int,                  // the clock its select used
    seen: map<Id, Sighting>,   // what its select saw
    claimed: seq<Message>)     // claimed rows not finished yet, as returned by the claim

  /** History of one message. */
  datatype Tally = Tally(
    attempts: nat,       // send calls started
    delivered: nat,      // calls the messaging service carried out
    accepted: nat,       // calls the run saw succeed
    lostReplies: nat,    // calls carried out but reported to the run as an error
    lostSaves: nat,      // saves of SENT that failed
    reschedules: nat,    // committed changes of scheduledAt
    stale: nat,          // those of them to a time already reached when saved
    overwrites: nat)     // split saves that found the row PROCESSING or SENT

  datatype State = State(
    clock: int,
    lock: Option<Lease>,
    rows: Table,
    runs: map<RunId, Run>,
    owner: map<Id, RunId>,          // history: the run that last claimed the row
    tally: map<Id, Tally>,          // history
    drafts: map<DraftId, Draft>)    // split user operations between read and save

  /** The row as it was read, and when, and what will be saved. */
  datatype Draft = Draft(readAt: int, seen: Message, op: UserOp, write: Message)

  datatype Step =
    | TimePasses(dt: nat)
    | Acquire(run: RunId, pod: Pod)
    | ReadClock(run: RunId)
    | Select(run: RunId, ids: seq<Id>)
    | SelectFails(run: RunId)
    | Claim(run: RunId, batch: seq<Message>)
    | ClaimFails(run: RunId)
    | Call(run: RunId, delivered: bool)
    | ReplyOk(run: RunId)
    | ReplyError(run: RunId, error: Caught)
    | SaveOk(run: RunId)
    | SaveFails(run: RunId, error: Caught)
    | FinishLoop(run: RunId)
    | Release(run: RunId, redisUp: bool)
    | Crash(run: RunId)
    | Create(id: Id, userId: string, create: CreateDto)
    | User(id: Id, userId: string, op: UserOp)
    | ReadDraft(draft: DraftId, id: Id, userId: string, op: UserOp)
    | SaveDraft(draft: DraftId)

  /** The step is no half of a split user operation. */
  predicate Atomic(step: Step) {
    !step.ReadDraft? && !step.SaveDraft?
  }

  /** A split save finds the row as its operation read it. */
  predicate Careful(s: State, step: Step) {
    step.SaveDraft? && step.draft in s.drafts ==>
      var m := s.drafts[step.draft].seen;
      m.id in s.rows && s.rows[m.id] == m
  }

  /** The Redis key exists: it was set and has not expired. */
  predicate KeyExists(lock: Option<Lease>, now: int) {
    lock.Some? && now < lock.value.expiry
  }

  /** What the release script leaves: it deletes the key only while it holds this owner's id. */
  function AfterRelease(lock: Option<Lease>, now: int, owner: Pod): Option<Lease> {
    if KeyExists(lock, now) && lock.value.owner == owner then None else lock
  }

  predicate LockLive(s: State) {
    KeyExists(s.lock, s.clock)
  }

  function WithRun(s: State, r: RunId, run: Run): State {
    s.(runs := s.runs[r := run])
  }

  function UserResult(s: State, id: Id, userId: string, op: UserOp): Result<Message, HttpError> {
    match op
    case UpdateOp(dto) => UpdatedMessage(s.rows, id, userId, dto, s.clock)
    case CancelOp => CancelledMessage(s.rows, id, userId)
  }

  /** When the step can be taken. */
  ghost predicate Enabled(s: State, step: Step) {
    match step
    case TimePasses(_) => true
    case Acquire(r, _) => r !in s.runs
    case ReadClock(r) => r in s.runs && s.runs[r].pc.Started?
    case Select(r, ids) =>
      && r in s.runs && s.runs[r].pc.Selecting?
      && IsSelection(s.rows, s.runs[r].pc.now, ids)
    case SelectFails(r) => r in s.runs && s.runs[r].pc.Selecting?
    case Claim(r, batch) =>
      && r in s.runs && s.runs[r].pc.Claiming?
      && IsReturned(s.rows, s.runs[r].pc.candidates, batch)
    case ClaimFails(r) => r in s.runs && s.runs[r].pc.Claiming?
    case Call(r, _) => r in s.runs && s.runs[r].pc.Sending? && s.runs[r].claimed != []
    case ReplyOk(r) => r in s.runs && s.runs[r].pc == Awaiting(true) && s.runs[r].claimed != []
    case ReplyError(r, _) => r in s.runs && s.runs[r].pc.Awaiting? && s.runs[r].claimed != []
    case SaveOk(r) => r in s.runs && s.runs[r].pc.Saving? && s.runs[r].claimed != []
    case SaveFails(r, _) => r in s.runs && s.runs[r].pc.Saving? && s.runs[r].claimed != []
    case FinishLoop(r) => r in s.runs && s.runs[r].pc.Sending? && s.runs[r].claimed == []
    case Release(r, _) => r in s.runs && s.runs[r].pc.Releasing?
    case Crash(r) => r in s.runs && !s.runs[r].pc.Ended?
    case Create(id, _, _) => id !in s.rows
    case User(_, _, _) => true
    case ReadDraft(d, _, _, _) => d !in s.drafts
    case SaveDraft(d) => d in s.drafts
  }

  function TallyOf(s: State, id: Id): Tally {
    if id in s.tally then s.tally[id] else Tally(0, 0, 0, 0, 0, 0, 0, 0)
  }

  function Sightings(s: State, ids: seq<Id>): map<Id, Sighting> {
    map id | id in ids && id in s.rows :: Sighting(s.rows[id].scheduledAt, TallyOf(s, id).reschedules, TallyOf(s, id).stale)
  }

  /** `SET key owner EX 55 NX`: nothing happens while a live lock exists, and that run never starts. */
  function AcquireLock(s: State, r: RunId, pod: Pod): State {
    if LockLive(s) then s
    else
      var expiry := s.clock + LOCK_TTL_MS;
      WithRun(s, r, Run(pod, expiry, false, Started, s.clock, map[], [])).(lock := Some(Lease(pod, expiry)))
  }

  function ClaimStep(s: State, r: RunId, batch: seq<Message>): State
    requires r in s.runs && s.runs[r].pc.Claiming?
  {
    var run := s.runs[r];
    var rows := ClaimRows(s.rows, run.pc.candidates);
    var owner := map id | id in s.owner.Keys + s.rows.Keys &&
                          (id in s.owner || Claimable(s.rows, id, run.pc.candidates)) ::
                   if Claimable(s.rows, id, run.pc.candidates) then r else s.owner[id];
    WithRun(s, r, run.(pc := Sending, claimed := batch)).(rows := rows, owner := owner)
  }

  /** The save of an update or cancel. */
  function Commit(s: State, id: Id, m: Message, op: UserOp): State {
    var t := TallyOf(s, id);
    s.(rows := s.rows[id := m],
       tally := if Reschedules(op) then
                  s.tally[id := t.(reschedules := t.reschedules + 1,
                                     stale := t.stale + (if m.scheduledAt <= s.clock then 1 else 0))]
                else s.tally)
  }

  function UserStep(s: State, id: Id, userId: string, op: UserOp): State {
    match UserResult(s, id, userId, op)
    case Err(_) => s
    case Ok(m) => Commit(s, id, m, op)
  }

  function WithPc(s: State, r: RunId, pc: Pc): State
    requires r in s.runs
  {
    WithRun(s, r, s.runs[r].(pc := pc))
  }

  function SelectStep(s: State, r: RunId, ids: seq<Id>): State
    requires r in s.runs && s.runs[r].pc.Selecting?
  {
    var run := s.runs[r];
    WithRun(s, r, run.(pc := if ids == [] then Releasing else Claiming(run.pc.now, ids), seen := Sightings(s, ids)))
  }

  /** The run moves on with its first claimed message, whose history is now t. */
  function AtHead(s: State, r: RunId, pc: Pc, t: Tally): State
    requires r in s.runs && s.runs[r].claimed != []
  {
    WithPc(s, r, pc).(tally := s.tally[s.runs[r].claimed[0].id := t])
  }

  function HeadTally(s: State, r: RunId): Tally
    requires r in s.runs && s.runs[r].claimed != []
  {
    TallyOf(s, s.runs[r].claimed[0].id)
  }

  function CallStep(s: State, r: RunId, delivered: bool): State
    requires r in s.runs && s.runs[r].claimed != []
  {
    var t := HeadTally(s, r);
    AtHead(s, r, Awaiting(delivered),
           t.(attempts := t.attempts + 1, delivered := t.delivered + (if delivered then 1 else 0)))
  }

  function ReplyOkStep(s: State, r: RunId): State
    requires r in s.runs && s.runs[r].claimed != []
  {
    var t := HeadTally(s, r);
    AtHead(s, r, Saving(s.runs[r].claimed[0].(status := Sent)), t.(accepted := t.accepted + 1))
  }

  function ReplyErrorStep(s: State, r: RunId, e: Caught): State
    requires r in s.runs && s.runs[r].pc.Awaiting? && s.runs[r].claimed != []
  {
    var t := HeadTally(s, r);
    AtHead(s, r, Saving(AfterError(s.runs[r].claimed[0], e)),
           t.(lostReplies := t.lostReplies + (if s.runs[r].pc.delivered then 1 else 0)))
  }

  /** A failed save of SENT goes through the `catch` branch; any other ends the loop. */
  function SaveFailsStep(s: State, r: RunId, e: Caught): State
    requires r in s.runs && s.runs[r].pc.Saving? && s.runs[r].claimed != []
  {
    var write, t := s.runs[r].pc.write, HeadTally(s, r);
    if write.status == Sent then
      AtHead(s, r, Saving(AfterError(write, e)), t.(lostSaves := t.lostSaves + 1))
    else
      WithPc(s, r, Releasing)
  }

  function SaveOkStep(s: State, r: RunId): State
    requires r in s.runs && s.runs[r].pc.Saving? && s.runs[r].claimed != []
  {
    var run := s.runs[r];
    WithRun(s, r, run.(pc := Sending, claimed := run.claimed[1..])).(rows := s.rows[run.pc.write.id := run.pc.write])
  }

  function ReleaseStep(s: State, r: RunId, redisUp: bool): State
    requires r in s.runs
  {
    var run := s.runs[r];
    if redisUp then
      WithRun(s, r, run.(pc := Ended, released := true)).(lock := AfterRelease(s.lock, s.clock, run.pod))
    else
      WithPc(s, r, Ended)
  }

  function CreateStep(s: State, id: Id, userId: string, dto: CreateDto): State {
    match NewMessage(id, userId, dto, s.clock)
    case Err(_) => s
    case Ok(m) => s.(rows := s.rows[id := m], tally := s.tally[id := Tally(0, 0, 0, 0, 0, 0, 0, 0)])
  }

  function ReadDraftStep(s: State, d: DraftId, id: Id, userId: string, op: UserOp): State {
    match UserResult(s, id, userId, op)
    case Err(_) => s
    case Ok(m) => s.(drafts := s.drafts[d := Draft(s.clock, s.rows[id], op, m)])
  }

  /** The row is, or may be, accepted and not recorded otherwise. */
  predicate InDelivery(s: State, id: Id) {
    id in s.rows && (s.rows[id].status == Processing || s.rows[id].status == Sent)
  }

  function SaveDraftStep(s: State, d: DraftId): State
    requires d in s.drafts
  {
    var id := s.drafts[d].seen.id;
    var s' := Commit(s, id, s.drafts[d].write, s.drafts[d].op);
    var t := TallyOf(s', id);
    s'.(drafts := s.drafts - {d},
        tally := if InDelivery(s, id) then s'.tally[id := t.(overwrites := t.overwrites + 1)] else s'.tally)
  }

  /** The state after an enabled step. */
  ghost function Apply(s: State, step: Step): State
    requires Enabled(s, step)
  {
    match step
    case TimePasses(dt) => s.(clock := s.clock + dt)
    case Acquire(r, pod) => AcquireLock(s, r, pod)
    case ReadClock(r) => WithRun(s, r, s.runs[r].(pc := Selecting(s.clock), now := s.clock))
    case Select(r, ids) => SelectStep(s, r, ids)
    case SelectFails(r) => WithPc(s, r, Releasing)
    case Claim(r, batch) => ClaimStep(s, r, batch)
    case ClaimFails(r) => WithPc(s, r, Releasing)
    case Call(r, delivered) => CallStep(s, r, delivered)
    case ReplyOk(r) => ReplyOkStep(s, r)
    case ReplyError(r, e) => ReplyErrorStep(s, r, e)
    case SaveOk(r) => SaveOkStep(s, r)
    case SaveFails(r, e) => SaveFailsStep(s, r, e)
    case FinishLoop(r) => WithPc(s, r, Releasing)
    case Release(r, redisUp) => ReleaseStep(s, r, redisUp)
    case Crash(r) => WithPc(s, r, Ended)
    case Create(id, userId, dto) => CreateStep(s, id, userId, dto)
    case User(id, userId, op) => UserStep(s, id, userId, op)
    case ReadDraft(d, id, userId, op) => ReadDraftStep(s, d, id, userId, op)
    case SaveDraft(d) => SaveDraftStep(s, d)
  }

  /** Steps that can be taken one after the other from s. */
  ghost predicate Valid(s: State, steps: seq<Step>)
    decreases |steps|
  {
    steps == [] ||
    (Enabled(s, steps[0]) && Valid(Apply(s, steps[0]), steps[1..]))
  }

  ghost function After(s: State, steps: seq<Step>): State
    requires Valid(s, steps)
    decreases |steps|
  {
    if steps == [] then s else After(Apply(s, steps[0]), steps[1..])
  }

  lemma {:induction false} ValidAppend(s: State, a: seq<Step>, b: seq<Step>)
    requires Valid(s, a) && Valid(After(s, a), b)
    ensures Valid(s, a + b) && After(s, a + b) == After(After(s, a), b)
    decreases |a|
  {
    if a == [] {
      assert a + b == b;
    } else {
      assert (a + b)[0] == a[0] && (a + b)[1..] == a[1..] + b;
      ValidAppend(Apply(s, a[0]), a[1..], b);
    }
  }

  /** One step, as a sequence of steps. */
  lemma One(s: State, step: Step)
    requires Enabled(s, step)
    ensures Valid(s, [step]) && After(s, [step]) == Apply(s, step)
  {
    assert [step][1..] == [];
  }

  ghost predicate AllAtomic(steps: seq<Step>) {
    forall i :: 0 <= i < |steps| ==> Atomic(steps[i])
  }

  /** Every split save among the steps finds its row as it was read. */
  ghost predicate AllCareful(s: State, steps: seq<Step>)
    requires Valid(s, steps)
    decreases |steps|
  {
    steps == [] || (Careful(s, steps[0]) && AllCareful(Apply(s, steps[0]), steps[1..]))
  }

  lemma {:induction false} AtomicIsCareful(s: State, steps: seq<Step>)
    requires Valid(s, steps) && AllAtomic(steps)
    ensures AllCareful(s, steps)
    decreases |steps|
  {
    if steps != [] {
      AtomicIsCareful(Apply(s, steps[0]), steps[1..]);
    }
  }

  lemma {:induction false} CarefulAppend(s: State, a: seq<Step>, b: seq<Step>)
    requires Valid(s, a) && Valid(After(s, a), b) && AllCareful(s, a) && AllCareful(After(s, a), b)
    ensures Valid(s, a + b) && AllCareful(s, a + b)
    decreases |a|
  {
    ValidAppend(s, a, b);
    if a == [] {
      assert a + b == b;
    } else {
      assert (a + b)[0] == a[0] && (a + b)[1..] == a[1..] + b;
      CarefulAppend(Apply(s, a[0]), a[1..], b);
    }
  }

  /** Nothing has happened yet. */
  ghost predicate Initial(s: State) {
    s == State(s.clock, None, map[], map[], map[], map[], map[])
  }

  /** s is reached from an empty system by some steps whose split saves are careful. */
  ghost predicate Reachable(s: State) {
    exists s0: State, steps: seq<Step> :: Reaches(s0, steps, s)
  }

  ghost predicate Reaches(s0: State, steps: seq<Step>, s: State) {
    Initial(s0) && Valid(s0, steps) && AllCareful(s0, steps) && After(s0, steps) == s
  }
}
