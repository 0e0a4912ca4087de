/**
 The rows of `scheduled_messages` and the operations the service performs on them:
 error classification, create / update / cancel, selecting and claiming due rows,
 and settling one row after a send.  Everything here is a function of its arguments;
 the step machine (Protocol), the tick theorems (Ticks) and the service class
 (MessageService) all use these definitions.  Times are integer milliseconds.
 */
module Messages {
  import opened Wrappers

  type Id = nat

  const LOCK_TTL_MS := 55 * 1000
  const MAX_SCHEDULE_HORIZON_MS := 365 * 24 * 60 * 60 * 1000
  const PROCESS_BATCH_SIZE := 100
  const RETRY_LIMIT := 3

  datatype Status = Pending | Processing | Sent | Cancelled | Failed

  datatype Message = Message(
    id: Id,
    userId: string,
    conversationId: string,
    content: string,
    metadata: Option<string>,
    scheduledAt: int,
    status: Status,
    retryCount: nat)

  type Table = map<Id, Message>

  /** Every row is stored under its own id. */
  ghost predicate Keyed(rows: Table) {
    forall id <- rows :: rows[id].id == id
  }

  // ---------------------------------------------------------------- error classification

  const TRANSIENT_HTTP_STATUS: set<int> := {408, 429, 502, 503, 504}
  const TRANSIENT_NETWORK_CODES: set<string> :=
    {"ECONNREFUSED", "ECONNRESET", "ETIMEDOUT", "EAI_AGAIN", "ENOTFOUND", "EPIPE"}
  const TRANSIENT_GRPC_CODES: set<int> := {4, 8, 10, 14}

  /** A property of a caught value: absent (or null), a string, or an integer. */
  datatype Field = Absent | Text(text: string) | Number(number: int)

  /** What a `catch` clause can receive, as far as the classification looks at it. */
  datatype Caught =
    | NotAnObject
    | Thrown(code: Field, responseStatus: Field, status: Field, statusCode: Field)

  /** The operator `??`. */
  function OrElse(first: Field, second: Field): Field {
    if first.Absent? then second else first
  }

  function HttpStatus(e: Caught): Field
    requires e.Thrown?
  {
    OrElse(e.responseStatus, OrElse(e.status, e.statusCode))
  }

  /** `isTransientError`. */
  predicate IsTransientError(e: Caught)
  {
    if e.NotAnObject? then
      false
    else if e.code.Text? && e.code.text in TRANSIENT_NETWORK_CODES then
      true
    else if e.code.Number? && e.code.number in TRANSIENT_GRPC_CODES then
      true
    else
      var http := HttpStatus(e);
      if http.Number? then
        if http.number == 404 || http.number == 410 then
          false
        else if http.number in TRANSIENT_HTTP_STATUS then
          true
        else if 400 <= http.number < 500 then
          false
        else
          http.number >= 500
      else
        false
  }

  /** The error the messaging client rethrows on its own timeout: no code, no status. */
  const CLIENT_TIMEOUT := Thrown(Absent, Absent, Absent, Absent)

  /**
   The closed form of the classification: the early 404/410 test and the listed 5xx codes change nothing, a
   code decides alone only when it is listed, and only the first present HTTP status counts.  In particular
   the client's own timeout is permanent.
   */
  lemma TransientExactly(e: Caught)
    ensures IsTransientError(e) <==>
            && e.Thrown?
            && (|| (e.code.Text? && e.code.text in
                      {"ECONNREFUSED", "ECONNRESET", "ETIMEDOUT", "EAI_AGAIN", "ENOTFOUND", "EPIPE"})
                || (e.code.Number? && e.code.number in {4, 8, 10, 14})
                || var http := if e.responseStatus != Absent then e.responseStatus
                               else if e.status != Absent then e.status else e.statusCode;
                   http.Number? && (http.number >= 500 || http.number == 408 || http.number == 429))
    ensures e == CLIENT_TIMEOUT ==> !IsTransientError(e)
  {
  }

  // ---------------------------------------------------------------- user operations

  datatype HttpError = NotFound | BadRequest | InternalServerError

  datatype CreateDto = CreateDto(
    conversationId: string, content: string, metadata: Option<string>, scheduledAt: int)

  datatype UpdateDto = UpdateDto(
    scheduledAt: Option<int>, content: Option<string>, metadata: Option<Option<string>>)

  predicate AcceptableTime(scheduledAt: int, now: int) {
    now < scheduledAt && scheduledAt - now <= MAX_SCHEDULE_HORIZON_MS
  }

  function NewMessage(id: Id, userId: string, dto: CreateDto, now: int): Result<Message, HttpError> {
    if !AcceptableTime(dto.scheduledAt, now) then Err(BadRequest)
    else Ok(Message(id, userId, dto.conversationId, dto.content, dto.metadata, dto.scheduledAt, Pending, 0))
  }

  function FindOwned(rows: Table, id: Id, userId: string): Result<Message, HttpError> {
    if userId == "" || id !in rows || rows[id].userId != userId then Err(NotFound)
    else Ok(rows[id])
  }

  function UpdatedMessage(rows: Table, id: Id, userId: string, dto: UpdateDto, now: int)
    : Result<Message, HttpError>
  {
    match FindOwned(rows, id, userId)
    case Err(e) => Err(e)
    case Ok(m) =>
      if m.status != Pending then Err(BadRequest)
      else if dto.scheduledAt.Some? && !AcceptableTime(dto.scheduledAt.value, now) then Err(BadRequest)
      else
        Ok(m.(scheduledAt := if dto.scheduledAt.Some? then dto.scheduledAt.value else m.scheduledAt,
              content := if dto.content.Some? then dto.content.value else m.content,
              metadata := if dto.metadata.Some? then dto.metadata.value else m.metadata))
  }

  function CancelledMessage(rows: Table, id: Id, userId: string): Result<Message, HttpError> {
    match FindOwned(rows, id, userId)
    case Err(e) => Err(e)
    case Ok(m) =>
      if m.status != Pending then Err(BadRequest) else Ok(m.(status := Cancelled))
  }

  /** A message is created exactly for a time after now and within 365 days, and holds what was asked for. */
  lemma CreatedExactly(id: Id, userId: string, dto: CreateDto, now: int)
    ensures NewMessage(id, userId, dto, now).Ok? <==> now < dto.scheduledAt <= now + 31536000000
    ensures match NewMessage(id, userId, dto, now)
            case Err(e) => e == BadRequest
            case Ok(m) =>
              && m.id == id && m.userId == userId && m.status == Pending && m.retryCount == 0
              && m.conversationId == dto.conversationId && m.content == dto.content && m.metadata == dto.metadata
              && m.scheduledAt == dto.scheduledAt
  {
  }

  predicate OwnedBy(rows: Table, id: Id, userId: string) {
    userId != "" && id in rows && rows[id].userId == userId
  }

  /** An update is accepted exactly for the owner's PENDING row and an acceptable time, and changes what it names. */
  lemma UpdatedExactly(rows: Table, id: Id, userId: string, dto: UpdateDto, now: int)
    ensures UpdatedMessage(rows, id, userId, dto, now).Ok?
            <==> OwnedBy(rows, id, userId) && rows[id].status == Pending
                 && (dto.scheduledAt.Some? ==> now < dto.scheduledAt.value <= now + 31536000000)
    ensures match UpdatedMessage(rows, id, userId, dto, now)
            case Err(e) => e == if OwnedBy(rows, id, userId) then BadRequest else NotFound
            case Ok(m) =>
              var was := rows[id];
              && m.id == was.id && m.userId == was.userId && m.conversationId == was.conversationId
              && m.status == was.status && m.retryCount == was.retryCount
              && m.scheduledAt == (if dto.scheduledAt.Some? then dto.scheduledAt.value else was.scheduledAt)
              && m.content == (if dto.content.Some? then dto.content.value else was.content)
              && m.metadata == (if dto.metadata.Some? then dto.metadata.value else was.metadata)
  {
  }

  /** A cancel is accepted exactly for the owner's PENDING row, and changes its status. */
  lemma CancelledExactly(rows: Table, id: Id, userId: string)
    ensures CancelledMessage(rows, id, userId).Ok? <==> OwnedBy(rows, id, userId) && rows[id].status == Pending
    ensures match CancelledMessage(rows, id, userId)
            case Err(e) => e == if OwnedBy(rows, id, userId) then BadRequest else NotFound
            case Ok(m) => m == rows[id].(status := Cancelled)
  {
  }

  datatype UserOp = UpdateOp(dto: UpdateDto) | CancelOp

  predicate Reschedules(op: UserOp) {
    op.UpdateOp? && op.dto.scheduledAt.Some?
  }

  /** What an update or cancel makes of a row. */
  predicate IsEdit(m: Message, op: UserOp, write: Message) {
    && m.status == Pending
    && match op
       case CancelOp => write == m.(status := Cancelled)
       case UpdateOp(dto) =>
         && write == m.(scheduledAt := write.scheduledAt, content := write.content, metadata := write.metadata)
         && (dto.scheduledAt.None? ==> write.scheduledAt == m.scheduledAt)
  }

  // ---------------------------------------------------------------- selecting and claiming

  predicate IsDue(rows: Table, id: Id, now: int) {
    id in rows && rows[id].status == Pending && rows[id].scheduledAt <= now
  }

  ghost predicate Distinct<T>(s: seq<T>) {
    forall i, j :: 0 <= i < j < |s| ==> s[i] != s[j]
  }

  /**
   What `find({ status: PENDING, scheduledAt <= now, order ASC, take 100 })` may answer: ties in
   scheduledAt are broken in any way.
   */
  ghost predicate IsSelection(rows: Table, now: int, ids: seq<Id>) {
    && Distinct(ids)
    && |ids| <= PROCESS_BATCH_SIZE
    && (forall i :: 0 <= i < |ids| ==> IsDue(rows, ids[i], now))
    && (forall i, j :: 0 <= i < j < |ids| ==> rows[ids[i]].scheduledAt <= rows[ids[j]].scheduledAt)
    && (forall id :: IsDue(rows, id, now) && id !in ids ==>
          |ids| == PROCESS_BATCH_SIZE && forall i :: 0 <= i < |ids| ==> rows[ids[i]].scheduledAt <= rows[id].scheduledAt)
  }

  /** Some row is scheduled no later than the others. */
  lemma EarliestExists(rows: Table, due: set<Id>)
    requires due != {} && due <= rows.Keys
    ensures exists id :: id in due && forall other <- due :: rows[id].scheduledAt <= rows[other].scheduledAt
    decreases |due|
  {
    var id :| id in due;
    if due == {id} {
      assert forall other <- due :: rows[id].scheduledAt <= rows[other].scheduledAt;
    } else {
      EarliestExists(rows, due - {id});
      var first :| first in due - {id} && forall other <- due - {id} :: rows[first].scheduledAt <= rows[other].scheduledAt;
      var best := if rows[id].scheduledAt <= rows[first].scheduledAt then id else first;
      assert forall other <- due :: other == id || other in due - {id};
      assert forall other <- due :: rows[best].scheduledAt <= rows[other].scheduledAt;
    }
  }

  /** A selection, in full: at most 100 distinct due rows by time, and every due row left out is no earlier than those taken. */
  lemma SelectionMeans(rows: Table, now: int, ids: seq<Id>)
    requires IsSelection(rows, now, ids)
    ensures |ids| <= 100
    ensures forall id <- ids :: id in rows && rows[id].status == Pending && rows[id].scheduledAt <= now
    ensures forall i, j :: 0 <= i < j < |ids| ==> ids[i] != ids[j] && rows[ids[i]].scheduledAt <= rows[ids[j]].scheduledAt
    ensures forall id <- rows :: rows[id].status == Pending && rows[id].scheduledAt <= now && id !in ids ==>
              |ids| == 100 && forall x <- ids :: rows[x].scheduledAt <= rows[id].scheduledAt
  {
    forall id <- ids ensures IsDue(rows, id, now) {
      var i :| 0 <= i < |ids| && ids[i] == id;
      assert IsDue(rows, ids[i], now);
    }
    forall id <- rows | rows[id].status == Pending && rows[id].scheduledAt <= now && id !in ids
      ensures |ids| == 100 && forall x <- ids :: rows[x].scheduledAt <= rows[id].scheduledAt
    {
      assert IsDue(rows, id, now);
      forall x <- ids ensures rows[x].scheduledAt <= rows[id].scheduledAt {
        var i :| 0 <= i < |ids| && ids[i] == x;
        assert rows[ids[i]].scheduledAt <= rows[id].scheduledAt;
      }
    }
  }

  predicate Claimable(rows: Table, id: Id, candidates: seq<Id>) {
    id in rows && id in candidates && rows[id].status == Pending
  }

  /** The table after `UPDATE ... SET status = PROCESSING WHERE id IN (..) AND status = PENDING`. */
  function ClaimRows(rows: Table, candidates: seq<Id>): Table {
    map id | id in rows :: if Claimable(rows, id, candidates) then rows[id].(status := Processing) else rows[id]
  }

  /** What `RETURNING *` may answer: the updated rows, each once, in any order. */
  ghost predicate IsReturned(rows: Table, candidates: seq<Id>, batch: seq<Message>) {
    && (forall i, j :: 0 <= i < j < |batch| ==> batch[i].id != batch[j].id)
    && (forall i :: 0 <= i < |batch| ==>
          Claimable(rows, batch[i].id, candidates) && batch[i] == rows[batch[i].id].(status := Processing))
    && (forall id :: Claimable(rows, id, candidates) ==> HasId(batch, id))
  }

  ghost predicate HasId(batch: seq<Message>, id: Id) {
    exists i :: 0 <= i < |batch| && batch[i].id == id
  }

  // ---------------------------------------------------------------- settling one row

  /** The `catch` branch of `sendMessage`: what it writes to the message. */
  function AfterError(m: Message, e: Caught): Message {
    if IsTransientError(e) && m.retryCount < RETRY_LIMIT then
      m.(retryCount := m.retryCount + 1, status := Pending)
    else
      m.(status := Failed)
  }

  /** The answer to one send. */
  datatype Reply = Accepted | Rejected(error: Caught)

  /** What a send without save faults leaves in the row. */
  function Settle(m: Message, reply: Reply): Message {
    match reply
    case Accepted => m.(status := Sent)
    case Rejected(e) => AfterError(m, e)
  }
}
