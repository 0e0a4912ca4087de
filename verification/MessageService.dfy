/**
 The service as objects: the repository and Redis it writes to, the message entities it mutates, and
 its methods, each proved against the functions of Messages and Protocol.  Clocks, the answers of
 the messaging service and the faults of the database and of Redis are parameters.
 */
module MessageService {
  import opened Wrappers
  import opened Messages
  import opened Protocol
  import Ticks
  import TickRefinement

  // ---------------------------------------------------------------- specification of one batch

  /** How the calls made for one claimed message go. */
  datatype Attempt = Attempt(reply: Reply, sentSave: Option<Caught>, catchSave: Option<Caught>)

  /** What `sendMessage` leaves in the row, and whether it throws. */
  datatype Outcome = Written(row: Message) | Threw

  /** The error that reaches the `catch` clause, if any. */
  function CaughtError(a: Attempt): Option<Caught> {
    match a.reply
    case Rejected(e) => Some(e)
    case Accepted => a.sentSave
  }

  function SendOutcome(m: Message, a: Attempt): Outcome {
    match CaughtError(a)
    case None => Written(m.(status := Sent))
    case Some(e) => if a.catchSave.None? then Written(AfterError(m, e)) else Threw
  }

  /** The table after the send loop: it stops at the first message whose catch branch throws. */
  function AfterBatch(rows: Table, batch: seq<Message>, attempt: Id -> Attempt): Table
    decreases |batch|
  {
    if batch == [] then rows
    else
      match SendOutcome(batch[0], attempt(batch[0].id))
      case Threw => rows
      case Written(row) => AfterBatch(rows[row.id := row], batch[1..], attempt)
  }

  /** How many messages of the batch are attempted: those up to the first whose catch branch throws, and it. */
  function Attempted(batch: seq<Message>, attempt: Id -> Attempt): (k: nat)
    ensures k <= |batch|
    decreases |batch|
  {
    if batch == [] then 0
    else if SendOutcome(batch[0], attempt(batch[0].id)).Threw? then 1
    else 1 + Attempted(batch[1..], attempt)
  }

  /** What one send leaves, in terms of its reply and of the saves that fail. */
  lemma OutcomeExactly(m: Message, a: Attempt)
    ensures SendOutcome(m, a).Threw? <==> (a.reply.Rejected? || a.sentSave.Some?) && a.catchSave.Some?
    ensures SendOutcome(m, a).Written? ==>
              SendOutcome(m, a).row ==
              if a.reply.Accepted? && a.sentSave.None? then m.(status := Sent)
              else
                var e := if a.reply.Rejected? then a.reply.error else a.sentSave.value;
                if IsTransientError(e) && m.retryCount <= 2 then m.(status := Pending, retryCount := m.retryCount + 1)
                else m.(status := Failed)
  {
  }

  /** The batch is attempted in order up to the first throw. */
  lemma {:induction false} AttemptedExactly(batch: seq<Message>, attempt: Id -> Attempt)
    ensures var k := Attempted(batch, attempt);
            && (forall i :: 0 <= i < k - 1 ==> SendOutcome(batch[i], attempt(batch[i].id)).Written?)
            && (k < |batch| ==> k > 0 && SendOutcome(batch[k - 1], attempt(batch[k - 1].id)).Threw?)
    decreases |batch|
  {
    if batch != [] && SendOutcome(batch[0], attempt(batch[0].id)).Written? {
      AttemptedExactly(batch[1..], attempt);
      forall i | 0 <= i < Attempted(batch, attempt) - 1 ensures SendOutcome(batch[i], attempt(batch[i].id)).Written? {
        assert i > 0 ==> batch[i] == batch[1..][i - 1];
      }
    }
  }

  /** No row outside the batch changes. */
  lemma {:induction false} RowBeside(rows: Table, batch: seq<Message>, attempt: Id -> Attempt, id: Id)
    requires forall i :: 0 <= i < |batch| ==> batch[i].id != id
    ensures id in rows <==> id in AfterBatch(rows, batch, attempt)
    ensures id in rows ==> AfterBatch(rows, batch, attempt)[id] == rows[id]
    decreases |batch|
  {
    if batch != [] && SendOutcome(batch[0], attempt(batch[0].id)).Written? {
      var row := SendOutcome(batch[0], attempt(batch[0].id)).row;
      assert forall i :: 0 <= i < |batch[1..]| ==> batch[1..][i] == batch[i + 1];
      RowBeside(rows[row.id := row], batch[1..], attempt, id);
    }
  }

  /**
   A message attempted without a throw has its outcome in its row; the one that throws, and those after it,
   keep theirs.
   */
  lemma {:induction false} RowAfter(rows: Table, batch: seq<Message>, attempt: Id -> Attempt, i: nat)
    requires forall i, j :: 0 <= i < j < |batch| ==> batch[i].id != batch[j].id
    requires i < |batch| && batch[i].id in rows
    ensures var outcome, rows' := SendOutcome(batch[i], attempt(batch[i].id)), AfterBatch(rows, batch, attempt);
            && batch[i].id in rows'
            && rows'[batch[i].id] == if i < Attempted(batch, attempt) && outcome.Written? then outcome.row else rows[batch[i].id]
    decreases |batch|
  {
    var head, tail := SendOutcome(batch[0], attempt(batch[0].id)), batch[1..];
    if head.Written? {
      var rows1 := rows[head.row.id := head.row];
      assert forall i :: 0 <= i < |tail| ==> tail[i] == batch[i + 1];
      if i == 0 {
        RowBeside(rows1, tail, attempt, batch[0].id);
      } else {
        RowAfter(rows1, tail, attempt, i - 1);
      }
    }
  }

  /** Without faults the claim and the loop are one Tick. */
  lemma FaultFreeBatchIsTick(rows: Table, ids: seq<Id>, batch: seq<Message>, attempt: Id -> Attempt, reply: Id -> Reply)
    requires Keyed(rows) && IsReturned(rows, ids, batch)
    requires forall id :: attempt(id).sentSave == None && attempt(id).catchSave == None && reply(id) == attempt(id).reply
    ensures AfterBatch(ClaimRows(rows, ids), batch, attempt) == Ticks.Tick(rows, ids, reply)
  {
    forall i | 0 <= i < |batch| ensures batch[i].id in rows && ClaimRows(rows, ids)[batch[i].id] == batch[i] {
      assert Claimable(rows, batch[i].id, ids);
    }
    BatchIsSettled(ClaimRows(rows, ids), batch, attempt, reply);
    TickRefinement.ClaimThenSettle(rows, ids, batch, reply);
  }

  lemma {:induction false} BatchIsSettled(rows: Table, batch: seq<Message>, attempt: Id -> Attempt, reply: Id -> Reply)
    requires forall i, j :: 0 <= i < j < |batch| ==> batch[i].id != batch[j].id
    requires forall i :: 0 <= i < |batch| ==> batch[i].id in rows && rows[batch[i].id] == batch[i]
    requires forall id :: attempt(id).sentSave == None && attempt(id).catchSave == None && reply(id) == attempt(id).reply
    ensures AfterBatch(rows, batch, attempt) == TickRefinement.Settled(rows, batch, reply)
    decreases |batch|
  {
    if batch == [] {
      assert TickRefinement.Settled(rows, batch, reply) == rows;
    } else {
      var m := batch[0];
      var settled := Settle(m, reply(m.id));
      assert SendOutcome(m, attempt(m.id)) == Written(settled);
      forall i | 0 <= i < |batch[1..]|
        ensures batch[1..][i].id in rows && rows[m.id := settled][batch[1..][i].id] == batch[1..][i]
      {
        assert batch[1..][i] == batch[i + 1];
      }
      BatchIsSettled(rows[m.id := settled], batch[1..], attempt, reply);
      TickRefinement.SettledCons(rows, batch, reply(m.id), reply, reply);
    }
  }

  // ---------------------------------------------------------------- entities and stores

  /** A loaded `ScheduledMessage` object. */
  class Entity {
    const id: Id
    const userId: string
    const conversationId: string
    var content: string
    var metadata: Option<string>
    var scheduledAt: int
    var status: Status
    var retryCount: nat

    constructor (m: Message)
      ensures Row() == m
    {
      id, userId, conversationId := m.id, m.userId, m.conversationId;
      content, metadata, scheduledAt := m.content, m.metadata, m.scheduledAt;
      status, retryCount := m.status, m.retryCount;
    }

    function Row(): Message
      reads this
    {
      Message(id, userId, conversationId, content, metadata, scheduledAt, status, retryCount)
    }
  }

  predicate NotLater(rows: Table, a: Id, b: Id) {
    a in rows && b in rows && rows[a].scheduledAt <= rows[b].scheduledAt
  }

  /** ids are the earliest due rows by time, and due are the others. */
  ghost predicate EarliestTaken(rows: Table, now: int, ids: seq<Id>, due: set<Id>) {
    && Distinct(ids) && (forall id :: IsDue(rows, id, now) <==> id in due || id in ids)
    && (forall i :: 0 <= i < |ids| ==> ids[i] !in due)
    && (forall i, j :: 0 <= i < j < |ids| ==> NotLater(rows, ids[i], ids[j]))
    && (forall i :: 0 <= i < |ids| ==> forall id <- due :: NotLater(rows, ids[i], id))
  }

  lemma TakeEarliest(rows: Table, now: int, ids: seq<Id>, due: set<Id>, first: Id)
    requires EarliestTaken(rows, now, ids, due) && first in due && forall other <- due :: NotLater(rows, first, other)
    ensures EarliestTaken(rows, now, ids + [first], due - {first})
  {
    assert forall id :: id in ids + [first] <==> id in ids || id == first;
  }

  lemma TakenIsSelection(rows: Table, now: int, ids: seq<Id>, due: set<Id>)
    requires EarliestTaken(rows, now, ids, due) && |ids| <= PROCESS_BATCH_SIZE && (due == {} || |ids| == PROCESS_BATCH_SIZE)
    ensures IsSelection(rows, now, ids)
  {
    forall i | 0 <= i < |ids| ensures IsDue(rows, ids[i], now) {
      assert ids[i] in ids;
    }
    forall i, j | 0 <= i < j < |ids| ensures rows[ids[i]].scheduledAt <= rows[ids[j]].scheduledAt {
      assert NotLater(rows, ids[i], ids[j]);
    }
    forall id | IsDue(rows, id, now) && id !in ids
      ensures |ids| == PROCESS_BATCH_SIZE && forall i :: 0 <= i < |ids| ==> rows[ids[i]].scheduledAt <= rows[id].scheduledAt
    {
      assert id in due;
      assert forall i :: 0 <= i < |ids| ==> NotLater(rows, ids[i], id);
    }
  }

  class Repository {
    var rows: Table

    constructor ()
      ensures rows == map[]
    {
      rows := map[];
    }

    /** The bounded, ordered select of due ids. */
    method FindDue(now: int) returns (ids: seq<Id>)
      ensures |ids| <= 100
      ensures forall id <- ids :: id in rows && rows[id].status == Pending && rows[id].scheduledAt <= now
      ensures forall i, j :: 0 <= i < j < |ids| ==> ids[i] != ids[j] && rows[ids[i]].scheduledAt <= rows[ids[j]].scheduledAt
      ensures forall id <- rows :: rows[id].status == Pending && rows[id].scheduledAt <= now && id !in ids ==>
                |ids| == 100 && forall x <- ids :: rows[x].scheduledAt <= rows[id].scheduledAt
      ensures IsSelection(rows, now, ids)
    {
      ids := [];
      var due := set id | id in rows && IsDue(rows, id, now);
      while due != {} && |ids| < PROCESS_BATCH_SIZE
        invariant |ids| <= PROCESS_BATCH_SIZE && EarliestTaken(rows, now, ids, due) && due <= rows.Keys
        decreases due
      {
        EarliestExists(rows, due);
        var first: Id :| first in due && forall other <- due :: rows[first].scheduledAt <= rows[other].scheduledAt;
        assert forall other <- due :: NotLater(rows, first, other);
        TakeEarliest(rows, now, ids, due, first);
        ids := ids + [first];
        due := due - {first};
      }
      TakenIsSelection(rows, now, ids, due);
      SelectionMeans(rows, now, ids);
    }

    /** The conditional update and its RETURNING clause. */
    method ClaimPending(ids: seq<Id>) returns (batch: seq<Message>)
      requires Keyed(rows) && Distinct(ids)
      modifies this
      ensures rows.Keys == old(rows).Keys
      ensures forall id <- rows ::
                rows[id] == if id in ids && old(rows)[id].status == Pending then old(rows)[id].(status := Processing) else old(rows)[id]
      ensures forall i, j :: 0 <= i < j < |batch| ==> batch[i].id != batch[j].id
      ensures forall m <- batch :: m.id in ids && m.id in rows && old(rows)[m.id].status == Pending && m == rows[m.id]
      ensures forall id <- ids :: id in rows && old(rows)[id].status == Pending ==> exists m <- batch :: m.id == id
      ensures rows == ClaimRows(old(rows), ids) && IsReturned(old(rows), ids, batch)
    {
      batch := [];
      for n := 0 to |ids|
        invariant rows == old(rows)
        invariant forall i, j :: 0 <= i < j < |batch| ==> batch[i].id != batch[j].id
        invariant forall i :: 0 <= i < |batch| ==> batch[i].id in ids[..n] && Claimable(rows, batch[i].id, ids)
                                                   && batch[i] == rows[batch[i].id].(status := Processing)
        invariant forall id :: Claimable(rows, id, ids) && id in ids[..n] ==> HasId(batch, id)
      {
        var id := ids[n];
        assert ids[..n + 1] == ids[..n] + [id];
        assert id !in ids[..n];
        ghost var before := batch;
        if id in rows && rows[id].status == Pending {
          batch := batch + [rows[id].(status := Processing)];
          assert batch[|batch| - 1].id == id;
        }
        forall x | HasId(before, x) ensures HasId(batch, x) {
          var i :| 0 <= i < |before| && before[i].id == x;
          assert batch[i].id == x;
        }
      }
      assert ids[..|ids|] == ids;
      forall id <- ids | id in rows && rows[id].status == Pending ensures exists m <- batch :: m.id == id {
        assert Claimable(rows, id, ids);
        var i :| 0 <= i < |batch| && batch[i].id == id;
        assert batch[i] in batch;
      }
      rows := ClaimRows(rows, ids);
    }

    /** `save`: overwrites by id, or fails and leaves the row. */
    method Save(message: Entity, fault: Option<Caught>) returns (thrown: Option<Caught>)
      modifies this
      ensures thrown == fault
      ensures rows == if fault.None? then old(rows)[message.id := message.Row()] else old(rows)
    {
      thrown := fault;
      if fault.None? {
        rows := rows[message.id := message.Row()];
      }
    }
  }

  class Redis {
    var lock: Option<Lease>

    constructor ()
      ensures lock == None
    {
      lock := None;
    }

    method SetNxEx(owner: Pod, ttlMs: int, now: int) returns (ok: bool)
      modifies this
      ensures ok <==> old(lock).None? || old(lock).value.expiry <= now
      ensures ok == !KeyExists(old(lock), now)
      ensures lock == if ok then Some(Lease(owner, now + ttlMs)) else old(lock)
    {
      ok := !KeyExists(lock, now);
      if ok {
        lock := Some(Lease(owner, now + ttlMs));
      }
    }

    method EvalRelease(owner: Pod, now: int)
      modifies this
      ensures lock == if old(lock).Some? && now < old(lock).value.expiry && old(lock).value.owner == owner then None else old(lock)
      ensures lock == AfterRelease(old(lock), now, owner)
    {
      if lock.Some? && now < lock.value.expiry && lock.value.owner == owner {
        lock := None;
      }
    }
  }

  /** What is asked of the messaging service; metadata as JSON text. */
  datatype Request = Request(
    conversationId: string, senderId: string, messageType: string, content: string, metadata: string, scheduledFor: int)

  class MessagingClient {
    var calls: seq<Request>

    constructor ()
      ensures calls == []
    {
      calls := [];
    }

    method SendScheduledMessage(request: Request, answer: Reply) returns (reply: Reply)
      modifies this
      ensures reply == answer && calls == old(calls) + [request]
    {
      calls := calls + [request];
      reply := answer;
    }
  }

  function RequestOf(m: Message): Request {
    Request(m.conversationId, m.userId, "TEXT", m.content, if m.metadata.Some? then m.metadata.value else "{}", m.scheduledAt)
  }

  function Requests(batch: seq<Message>): seq<Request> {
    seq(|batch|, i requires 0 <= i < |batch| => RequestOf(batch[i]))
  }

  // ---------------------------------------------------------------- the service

  /** Clock readings and faults of one tick. */
  datatype TickEnvironment = TickEnvironment(
    lockNow: int, selectNow: int, releaseNow: int,
    selectFails: bool, claimFails: bool, redisUp: bool,
    attempt: Id -> Attempt)

  /**
   What one invocation does to the table and the lock: nothing while the key exists; otherwise a selection
   is claimed and sent in turn up to the first throwing catch branch, and the key is given back if it is
   still this pod's.
   */
  ghost predicate Invocation(
    rows: Table, lock: Option<Lease>, pod: Pod, env: TickEnvironment,
    ran: bool, ids: seq<Id>, batch: seq<Message>, rows': Table, lock': Option<Lease>)
  {
    && ran == !KeyExists(lock, env.lockNow)
    && (!ran ==> rows' == rows && lock' == lock)
    && (ran && !env.selectFails ==> IsSelection(rows, env.selectNow, ids))
    && (ran && (env.selectFails || env.claimFails) ==> rows' == rows)
    && (ran && !env.selectFails && !env.claimFails ==>
          IsReturned(rows, ids, batch) && rows' == AfterBatch(ClaimRows(rows, ids), batch, env.attempt))
    && (ran ==>
          var mine := Some(Lease(pod, env.lockNow + 55000));
          lock' == if env.redisUp then AfterRelease(mine, env.releaseNow, pod) else mine)
  }

  /** The answer to an operation whose save may throw. */
  function Served(result: Result<Message, HttpError>, fault: Option<Caught>): Result<Message, HttpError> {
    if result.Ok? && fault.Some? then Err(InternalServerError) else result
  }

  class ScheduledMessagesService {
    const repository: Repository
    const redis: Redis
    const messagingClient: MessagingClient
    const lockOwnerId: Pod

    constructor (repository: Repository, redis: Redis, messagingClient: MessagingClient, lockOwnerId: Pod)
      ensures this.repository == repository && this.redis == redis && this.messagingClient == messagingClient
      ensures this.lockOwnerId == lockOwnerId
    {
      this.repository, this.redis, this.messagingClient, this.lockOwnerId := repository, redis, messagingClient, lockOwnerId;
    }

    /** A failing insert is a 500, and nothing is written. */
    method Create(id: Id, userId: string, dto: CreateDto, now: int, fault: Option<Caught>)
      returns (response: Result<Message, HttpError>)
      requires id !in repository.rows
      modifies repository
      ensures response.Ok? <==> fault.None? && now < dto.scheduledAt <= now + 31536000000
      ensures response.Ok? ==>
                var m := response.value;
                && m == Message(id, userId, dto.conversationId, dto.content, dto.metadata, dto.scheduledAt, Pending, 0)
                && repository.rows == old(repository.rows)[id := m]
      ensures response.Err? ==> repository.rows == old(repository.rows)
                                && response.error == if now < dto.scheduledAt <= now + 31536000000 then InternalServerError else BadRequest
      ensures response == Served(NewMessage(id, userId, dto, now), fault)
      ensures repository.rows == if fault.Some? then old(repository.rows)
                                 else Ticks.UserNext(old(repository.rows), Ticks.Created(now, id, userId, dto))
    {
      if dto.scheduledAt <= now {
        return Err(BadRequest);
      }
      if dto.scheduledAt - now > MAX_SCHEDULE_HORIZON_MS {
        return Err(BadRequest);
      }
      var message := new Entity(Message(id, userId, dto.conversationId, dto.content, dto.metadata, dto.scheduledAt, Pending, 0));
      var thrown := repository.Save(message, fault);
      return Answer(message, thrown);
    }

    /** A row is found exactly for its owner; no error tells a foreign row from a missing one. */
    method FindOwnedOrThrow(id: Id, userId: string, findFails: bool) returns (found: Result<Message, HttpError>)
      ensures found.Ok? <==> !findFails && userId != "" && id in repository.rows && repository.rows[id].userId == userId
      ensures found.Ok? ==> found.value == repository.rows[id]
      ensures found.Err? ==> found.error == if findFails && userId != "" then InternalServerError else NotFound
    {
      if userId == "" {
        return Err(NotFound);
      }
      if findFails {
        return Err(InternalServerError);
      }
      if id !in repository.rows || repository.rows[id].userId != userId {
        return Err(NotFound);
      }
      return Ok(repository.rows[id]);
    }

    method Update(id: Id, userId: string, dto: UpdateDto, now: int, findFails: bool, fault: Option<Caught>)
      returns (response: Result<Message, HttpError>)
      requires Keyed(repository.rows)
      modifies repository
      ensures response.Ok? <==>
                && !findFails && fault.None? && OwnedBy(old(repository.rows), id, userId)
                && old(repository.rows)[id].status == Pending
                && (dto.scheduledAt.Some? ==> now < dto.scheduledAt.value <= now + 31536000000)
      ensures response.Ok? ==>
                var was, m := old(repository.rows)[id], response.value;
                && m.scheduledAt == (if dto.scheduledAt.Some? then dto.scheduledAt.value else was.scheduledAt)
                && m.content == (if dto.content.Some? then dto.content.value else was.content)
                && m.metadata == (if dto.metadata.Some? then dto.metadata.value else was.metadata)
                && m == was.(scheduledAt := m.scheduledAt, content := m.content, metadata := m.metadata)
                && repository.rows == old(repository.rows)[id := m]
      ensures response.Err? ==> repository.rows == old(repository.rows)
      ensures response == if findFails && userId != "" then Err(InternalServerError)
                          else Served(UpdatedMessage(old(repository.rows), id, userId, dto, now), fault)
      ensures repository.rows == if findFails || fault.Some? then old(repository.rows)
                                 else Ticks.UserNext(old(repository.rows), Ticks.Updated(now, id, userId, dto))
    {
      var found := FindOwnedOrThrow(id, userId, findFails);
      if found.Err? {
        return Err(found.error);
      }
      var message := new Entity(found.value);
      if message.status != Pending {
        return Err(BadRequest);
      }
      if dto.scheduledAt.Some? {
        if dto.scheduledAt.value <= now {
          return Err(BadRequest);
        }
        if dto.scheduledAt.value - now > MAX_SCHEDULE_HORIZON_MS {
          return Err(BadRequest);
        }
        message.scheduledAt := dto.scheduledAt.value;
      }
      if dto.content.Some? {
        message.content := dto.content.value;
      }
      if dto.metadata.Some? {
        message.metadata := dto.metadata.value;
      }
      var thrown := repository.Save(message, fault);
      return Answer(message, thrown);
    }

    method Cancel(id: Id, userId: string, ghost now: int, findFails: bool, fault: Option<Caught>)
      returns (response: Result<Message, HttpError>)
      requires Keyed(repository.rows)
      modifies repository
      ensures response.Ok? <==>
                && !findFails && fault.None? && OwnedBy(old(repository.rows), id, userId)
                && old(repository.rows)[id].status == Pending
      ensures response.Ok? ==>
                && response.value == old(repository.rows)[id].(status := Cancelled)
                && repository.rows == old(repository.rows)[id := response.value]
      ensures response.Err? ==> repository.rows == old(repository.rows)
      ensures response == if findFails && userId != "" then Err(InternalServerError)
                          else Served(CancelledMessage(old(repository.rows), id, userId), fault)
      ensures repository.rows == if findFails || fault.Some? then old(repository.rows)
                                 else Ticks.UserNext(old(repository.rows), Ticks.CancelDone(now, id, userId))
    {
      var found := FindOwnedOrThrow(id, userId, findFails);
      if found.Err? {
        return Err(found.error);
      }
      var message := new Entity(found.value);
      if message.status != Pending {
        return Err(BadRequest);
      }
      message.status := Cancelled;
      var thrown := repository.Save(message, fault);
      return Answer(message, thrown);
    }

    function Answer(message: Entity, thrown: Option<Caught>): Result<Message, HttpError>
      reads message
    {
      if thrown.Some? then Err(InternalServerError) else Ok(message.Row())
    }

    /**
     One call with the row's own conversation, owner, content, metadata and time; then SENT is saved, or the
     error, be it the reply's or the failed save's, decides between PENDING with one more retry and FAILED.
     */
    method SendMessage(message: Entity, a: Attempt) returns (threw: bool)
      modifies message, repository, messagingClient
      ensures var row := old(message.Row());
              messagingClient.calls == old(messagingClient.calls)
              + [Request(row.conversationId, row.userId, "TEXT", row.content,
                         if row.metadata.Some? then row.metadata.value else "{}", row.scheduledAt)]
      ensures threw <==> (a.reply.Rejected? || a.sentSave.Some?) && a.catchSave.Some?
      ensures threw ==> repository.rows == old(repository.rows)
      ensures !threw ==>
                var row := old(message.Row());
                var error := if a.reply.Rejected? then Some(a.reply.error) else a.sentSave;
                repository.rows == old(repository.rows)[row.id :=
                  if error.None? then row.(status := Sent)
                  else if IsTransientError(error.value) && row.retryCount <= 2 then
                    row.(status := Pending, retryCount := row.retryCount + 1)
                  else row.(status := Failed)]
    {
      var reply := messagingClient.SendScheduledMessage(RequestOf(message.Row()), a.reply);
      var error := None;
      if reply.Accepted? {
        message.status := Sent;
        error := repository.Save(message, a.sentSave);
        if error.None? {
          return false;
        }
      } else {
        error := Some(reply.error);
      }
      var canRetry := IsTransientError(error.value) && message.retryCount < RETRY_LIMIT;
      if canRetry {
        message.retryCount := message.retryCount + 1;
        message.status := Pending;
      } else {
        message.status := Failed;
      }
      var thrown := repository.Save(message, a.catchSave);
      return thrown.Some?;
    }

    method ProcessDueMessages(env: TickEnvironment) returns (ran: bool, ghost ids: seq<Id>, ghost batch: seq<Message>)
      requires Keyed(repository.rows)
      modifies repository, redis, messagingClient
      ensures Invocation(old(repository.rows), old(redis.lock), lockOwnerId, env,
                         ran, ids, batch, repository.rows, redis.lock)
      ensures messagingClient.calls == old(messagingClient.calls) + Requests(batch[..Attempted(batch, env.attempt)])
      ensures !ran || env.selectFails || env.claimFails ==> batch == []
    {
      ids, batch := [], [];
      ran := redis.SetNxEx(lockOwnerId, LOCK_TTL_MS, env.lockNow);
      if !ran {
        return;
      }
      if !env.selectFails {
        var candidates := repository.FindDue(env.selectNow);
        ids := candidates;
        if candidates == [] {
          NothingClaimable(repository.rows);
        } else if !env.claimFails {
          var raw := repository.ClaimPending(candidates);
          batch := raw;
          SendLoop(raw, env.attempt);
        }
      }
      if env.redisUp {
        redis.EvalRelease(lockOwnerId, env.releaseNow);
      }
    }

    /** One turn of the loop, on the entity of a claimed row. */
    method SendOne(m: Message, a: Attempt) returns (threw: bool)
      modifies repository, messagingClient
      ensures threw == SendOutcome(m, a).Threw?
      ensures repository.rows == if threw then old(repository.rows) else old(repository.rows)[m.id := SendOutcome(m, a).row]
      ensures messagingClient.calls == old(messagingClient.calls) + [RequestOf(m)]
    {
      OutcomeExactly(m, a);
      var message := new Entity(m);
      threw := SendMessage(message, a);
    }

    method SendLoop(raw: seq<Message>, attempt: Id -> Attempt)
      requires forall i :: 0 <= i < |raw| ==> raw[i].id in repository.rows
      modifies repository, messagingClient
      ensures repository.rows == AfterBatch(old(repository.rows), raw, attempt)
      ensures messagingClient.calls == old(messagingClient.calls) + Requests(raw[..Attempted(raw, attempt)])
    {
      var n := 0;
      assert raw[0..] == raw && Requests(raw[..0]) == [];
      while n < |raw|
        invariant 0 <= n <= |raw|
        invariant AfterBatch(old(repository.rows), raw, attempt) == AfterBatch(repository.rows, raw[n..], attempt)
        invariant messagingClient.calls == old(messagingClient.calls) + Requests(raw[..n])
        invariant Attempted(raw, attempt) == n + Attempted(raw[n..], attempt)
      {
        NextInBatch(repository.rows, raw, attempt, n);
        var threw := SendOne(raw[n], attempt(raw[n].id));
        if threw {
          return;
        }
        n := n + 1;
      }
      assert raw[..n] == raw;
    }
  }

  /** The batch from its n-th message on, and the requests up to it. */
  lemma NextInBatch(rows: Table, raw: seq<Message>, attempt: Id -> Attempt, n: nat)
    requires n < |raw|
    ensures Requests(raw[..n + 1]) == Requests(raw[..n]) + [RequestOf(raw[n])]
    ensures match SendOutcome(raw[n], attempt(raw[n].id))
            case Threw => AfterBatch(rows, raw[n..], attempt) == rows && Attempted(raw[n..], attempt) == 1
            case Written(row) =>
              && row.id == raw[n].id && AfterBatch(rows, raw[n..], attempt) == AfterBatch(rows[row.id := row], raw[n + 1..], attempt)
              && Attempted(raw[n..], attempt) == 1 + Attempted(raw[n + 1..], attempt)
  {
    assert raw[n..][0] == raw[n] && raw[n..][1..] == raw[n + 1..];
  }

  lemma NothingClaimable(rows: Table)
    ensures ClaimRows(rows, []) == rows && IsReturned(rows, [], [])
  {
  }
}
