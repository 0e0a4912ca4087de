/**
 Progress of fault-free, non-overlapping runs.  One such run acts on the table as one `Tick` of a selection
 made earlier (module TickRefinement proves this of the step machine); before, during and after it users
 create, update and cancel messages.  All bounds below rest on one measure: a PENDING row holds one credit
 for each claim it can still undergo, a row not yet created holds all of them, and every row a run selects
 gives one up.  A reschedule saved after its new time has passed puts a row into the backlog; such rows count
 like those that were there.
 */
module Ticks {
  import opened Wrappers
  import opened Messages
  import opened Sets

  const MAX_CLAIMS := RETRY_LIMIT + 1

  /** The table after a fault-free run that selected ids and got these replies. */
  function Tick(rows: Table, ids: seq<Id>, reply: Id -> Reply): Table {
    map id | id in rows :: if Claimable(rows, id, ids) then Settle(rows[id], reply(id)) else rows[id]
  }

  // ---------------------------------------------------------------- user operations

  datatype UserEvent =
    | Created(now: int, id: Id, userId: string, create: CreateDto)
    | Updated(now: int, id: Id, userId: string, update: UpdateDto)
    | CancelDone(now: int, id: Id, userId: string)
    | Saved(now: int, id: Id, op: UserOp, write: Message)   // the second half of a split operation

  function WithResult(rows: Table, id: Id, result: Result<Message, HttpError>): Table {
    if result.Ok? then rows[id := result.value] else rows
  }

  predicate UserCan(rows: Table, u: UserEvent) {
    && (u.Created? ==> u.id !in rows)
    && (u.Saved? ==> u.id in rows && IsEdit(rows[u.id], u.op, u.write))
  }

  function UserNext(rows: Table, u: UserEvent): Table {
    match u
    case Created(now, id, userId, dto) => WithResult(rows, id, NewMessage(id, userId, dto, now))
    case Updated(now, id, userId, dto) => WithResult(rows, id, UpdatedMessage(rows, id, userId, dto, now))
    case CancelDone(_, id, userId) => WithResult(rows, id, CancelledMessage(rows, id, userId))
    case Saved(_, id, _, write) => rows[id := write]
  }

  predicate UserHistory(rows: Table, us: seq<UserEvent>)
    decreases |us|
  {
    us == [] || (UserCan(rows, us[0]) && UserHistory(UserNext(rows, us[0]), us[1..]))
  }

  function UserFinal(rows: Table, us: seq<UserEvent>): Table
    decreases |us|
  {
    if us == [] then rows else UserFinal(UserNext(rows, us[0]), us[1..])
  }

  /** The rows moved to a time already reached. */
  function LateIds(us: seq<UserEvent>): set<Id> {
    set u | u in us && u.Saved? && Reschedules(u.op) && u.write.scheduledAt <= u.now :: u.id
  }

  ghost predicate UsersNotBefore(us: seq<UserEvent>, time: int) {
    forall u <- us :: u.now >= time
  }

  /** Row id, if there is one, is neither cancelled nor rescheduled on the way from rows to rows'. */
  predicate Unmoved(rows: Table, rows': Table, id: Id) {
    id in rows ==> id in rows' && rows'[id].status == rows[id].status && rows'[id].scheduledAt == rows[id].scheduledAt
  }

  predicate UsersLeave(rows: Table, us: seq<UserEvent>, id: Id)
    decreases |us|
  {
    us == [] || (Unmoved(rows, UserNext(rows, us[0]), id) && UsersLeave(UserNext(rows, us[0]), us[1..], id))
  }

  // ---------------------------------------------------------------- histories

  datatype Event =
    | RunDone(now: int, ids: seq<Id>, meanwhile: seq<UserEvent>, reply: Id -> Reply)   // users act between select and claim
    | UserDone(user: UserEvent)

  ghost predicate CanHappen(rows: Table, e: Event) {
    match e
    case RunDone(now, ids, meanwhile, _) => IsSelection(rows, now, ids) && UserHistory(rows, meanwhile)
    case UserDone(u) => UserCan(rows, u)
  }

  function Next(rows: Table, e: Event): Table {
    match e
    case RunDone(_, ids, meanwhile, reply) => Tick(UserFinal(rows, meanwhile), ids, reply)
    case UserDone(u) => UserNext(rows, u)
  }

  ghost predicate History(rows: Table, events: seq<Event>)
    decreases |events|
  {
    events == [] || (CanHappen(rows, events[0]) && History(Next(rows, events[0]), events[1..]))
  }

  function Final(rows: Table, events: seq<Event>): Table
    decreases |events|
  {
    if events == [] then rows else Final(Next(rows, events[0]), events[1..])
  }

  function Runs(events: seq<Event>): nat
    decreases |events|
  {
    if events == [] then 0 else (if events[0].RunDone? then 1 else 0) + Runs(events[1..])
  }

  ghost predicate EventNotBefore(e: Event, time: int) {
    match e
    case RunDone(now, _, meanwhile, _) => now >= time && UsersNotBefore(meanwhile, time)
    case UserDone(u) => u.now >= time
  }

  ghost predicate NotBefore(events: seq<Event>, time: int) {
    forall e <- events :: EventNotBefore(e, time)
  }

  predicate EventLeaves(rows: Table, e: Event, id: Id) {
    match e
    case RunDone(_, _, meanwhile, _) => UsersLeave(rows, meanwhile, id)
    case UserDone(u) => Unmoved(rows, UserNext(rows, u), id)
  }

  /** No user cancels or reschedules row id in the history; edits of it and refused operations do not matter. */
  predicate Undisturbed(rows: Table, events: seq<Event>, id: Id)
    decreases |events|
  {
    events == [] || (EventLeaves(rows, events[0], id) && Undisturbed(Next(rows, events[0]), events[1..], id))
  }

  function LateIdsOf(e: Event): set<Id> {
    match e
    case RunDone(_, _, meanwhile, _) => LateIds(meanwhile)
    case UserDone(u) => LateIds([u])
  }

  /** The rows users moved, in the course of the history, to a time already reached. */
  function Late(events: seq<Event>): set<Id>
    decreases |events|
  {
    if events == [] then {} else LateIdsOf(events[0]) + Late(events[1..])
  }

  /** Some run of the history selected id. */
  ghost predicate Picked(events: seq<Event>, id: Id) {
    exists e <- events :: e.RunDone? && id in e.ids
  }

  predicate CountsOk(rows: Table) {
    forall id <- rows :: rows[id].retryCount <= RETRY_LIMIT
  }

  // ---------------------------------------------------------------- backlog and credits

  function Backlog(rows: Table, time: int): set<Id> {
    set id | id in rows && rows[id].status == Pending && rows[id].scheduledAt <= time
  }

  /** How many claims the row can still undergo. */
  function Left(rows: Table, id: Id): nat {
    if id !in rows then MAX_CLAIMS
    else if rows[id].status == Pending && rows[id].retryCount < MAX_CLAIMS then MAX_CLAIMS - rows[id].retryCount
    else 0
  }

  function Credits(rows: Table, ids: set<Id>): set<(Id, nat)> {
    set id, j: nat | id in ids && j < Left(rows, id) :: (id, j)
  }

  /** The last credit of each of ids. */
  function LastCredits(rows: Table, ids: set<Id>): set<(Id, int)> {
    set id | id in ids :: (id, Left(rows, id) - 1)
  }

  lemma {:induction false} CreditsBound(rows: Table, ids: set<Id>)
    ensures |Credits(rows, ids)| <= MAX_CLAIMS * |ids|
    decreases |ids|
  {
    if ids == {} {
      assert Credits(rows, ids) == {};
    } else {
      var id :| id in ids;
      var rest := ids - {id};
      var own := set j: nat | j < MAX_CLAIMS :: (id, j);
      assert own == {(id, 0), (id, 1), (id, 2), (id, 3)};
      assert |own| == MAX_CLAIMS;
      assert Credits(rows, ids) <= own + Credits(rows, rest);
      SubsetSize(Credits(rows, ids), own + Credits(rows, rest));
      CreditsBound(rows, rest);
    }
  }

  lemma {:induction false} LastCreditsSize(rows: Table, ids: set<Id>)
    ensures |LastCredits(rows, ids)| == |ids|
    decreases |ids|
  {
    if ids == {} {
      assert LastCredits(rows, ids) == {};
    } else {
      var id :| id in ids;
      var one := (id, Left(rows, id) - 1);
      assert LastCredits(rows, ids) == {one} + LastCredits(rows, ids - {id});
      assert one !in LastCredits(rows, ids - {id});
      LastCreditsSize(rows, ids - {id});
    }
  }

  function AsSet(ids: seq<Id>): set<Id> {
    set id | id in ids
  }

  lemma {:induction false} DistinctSize(ids: seq<Id>)
    requires Distinct(ids)
    ensures |AsSet(ids)| == |ids|
    decreases |ids|
  {
    if ids != [] {
      var first, rest := ids[0], ids[1..];
      assert forall i, j :: 0 <= i < j < |rest| ==> rest[i] == ids[i + 1] && rest[j] == ids[j + 1];
      DistinctSize(rest);
      FirstNotLater(ids);
      assert AsSet(ids) == {first} + AsSet(rest);
    }
  }

  lemma FirstNotLater(ids: seq<Id>)
    requires ids != [] && Distinct(ids)
    ensures ids[0] !in ids[1..]
  {
    forall i | 0 <= i < |ids[1..]| ensures ids[1..][i] != ids[0] {
      assert ids[1..][i] == ids[i + 1];
    }
  }

  // ---------------------------------------------------------------- user operations on the measure

  /** What users keep: rows, retry counters and settled rows; no row regains a claim, and only late rows fall due. */
  ghost predicate UsersKeep(rows: Table, rows': Table, time: int, late: set<Id>) {
    && Keyed(rows') && CountsOk(rows') && Backlog(rows', time) <= Backlog(rows, time) + late
    && (forall id :: Left(rows', id) <= Left(rows, id))
    && forall id <- rows ::
         && id in rows' && rows'[id].retryCount == rows[id].retryCount
         && (rows[id].status in {Sent, Failed} ==> rows'[id] == rows[id])
         && (rows'[id].status == Pending ==> rows[id].status == Pending)
  }

  lemma UserKeeps(rows: Table, u: UserEvent, time: int)
    requires UserCan(rows, u) && u.now >= time && Keyed(rows) && CountsOk(rows)
    ensures UsersKeep(rows, UserNext(rows, u), time, LateIds([u]))
  {
    assert u in [u];
  }

  lemma {:induction false} UsersKeepAll(rows: Table, us: seq<UserEvent>, time: int)
    requires UserHistory(rows, us) && UsersNotBefore(us, time) && Keyed(rows) && CountsOk(rows)
    ensures UsersKeep(rows, UserFinal(rows, us), time, LateIds(us))
    decreases |us|
  {
    if us != [] {
      assert us[0] in us;
      UserKeeps(rows, us[0], time);
      UsersKeepAll(UserNext(rows, us[0]), us[1..], time);
      assert LateIds(us) == LateIds([us[0]]) + LateIds(us[1..]);
    }
  }

  lemma {:induction false} LeftUnmoved(rows: Table, us: seq<UserEvent>, id: Id)
    requires UsersLeave(rows, us, id)
    ensures Unmoved(rows, UserFinal(rows, us), id)
    decreases |us|
  {
    if us != [] {
      LeftUnmoved(UserNext(rows, us[0]), us[1..], id);
    }
  }

  /** Some time is not after any of the events. */
  lemma {:induction false} Earliest(us: seq<UserEvent>) returns (time: int)
    ensures UsersNotBefore(us, time)
    decreases |us|
  {
    time := 0;
    if us != [] {
      time := Earliest(us[1..]);
      time := if us[0].now < time then us[0].now else time;
      assert forall u <- us :: u == us[0] || u in us[1..];
    }
  }

  // ---------------------------------------------------------------- one event

  /** What an event keeps; a run gives up a credit of every row it selects. */
  ghost predicate Spends(rows: Table, e: Event, rows': Table, time: int) {
    && Keyed(rows') && CountsOk(rows') && rows.Keys <= rows'.Keys
    && Backlog(rows', time) <= Backlog(rows, time) + LateIdsOf(e)
    && (forall id :: Left(rows', id) + (if e.RunDone? && id in e.ids then 1 else 0) <= Left(rows, id))
    && (forall id <- rows :: rows'[id].retryCount >= rows[id].retryCount)
    && (forall id <- rows :: id in Backlog(rows', time) && e.RunDone? && id in e.ids ==>
          rows'[id].retryCount == rows[id].retryCount + 1)
  }

  lemma RunSpends(rows: Table, e: Event, time: int)
    requires e.RunDone? && CanHappen(rows, e) && EventNotBefore(e, time) && Keyed(rows) && CountsOk(rows)
    ensures Spends(rows, e, Next(rows, e), time)
  {
    UsersKeepAll(rows, e.meanwhile, time);
    var mid := UserFinal(rows, e.meanwhile);
    TickSpends(mid, e.ids, e.reply, time);
    forall id <- e.ids ensures id in rows && rows[id].status == Pending {
      var i :| 0 <= i < |e.ids| && e.ids[i] == id;
      assert IsDue(rows, e.ids[i], e.now);
    }
  }

  lemma TickSpends(rows: Table, ids: seq<Id>, reply: Id -> Reply, time: int)
    requires Keyed(rows) && CountsOk(rows)
    ensures var rows' := Tick(rows, ids, reply);
            && Keyed(rows') && CountsOk(rows') && rows'.Keys == rows.Keys && Backlog(rows', time) <= Backlog(rows, time)
            && (forall id :: Left(rows', id) + (if Claimable(rows, id, ids) then 1 else 0) <= Left(rows, id))
            && (forall id <- rows :: rows'[id].retryCount >= rows[id].retryCount)
            && (forall id <- rows :: rows'[id].status == Pending ==>
                  rows[id].status == Pending
                  && rows'[id].retryCount == rows[id].retryCount + (if id in ids then 1 else 0))
  {
  }

  lemma EventSpends(rows: Table, e: Event, time: int)
    requires CanHappen(rows, e) && EventNotBefore(e, time) && Keyed(rows) && CountsOk(rows)
    ensures Spends(rows, e, Next(rows, e), time)
  {
    match e
    case RunDone(_, _, _, _) => RunSpends(rows, e, time);
    case UserDone(u) => UserKeeps(rows, u, time);
  }

  lemma EventKeeps(rows: Table, e: Event)
    requires CanHappen(rows, e) && Keyed(rows) && CountsOk(rows)
    ensures Keyed(Next(rows, e)) && CountsOk(Next(rows, e))
  {
    match e
    case RunDone(now, _, meanwhile, _) =>
      var time := Earliest(meanwhile);
      EventSpends(rows, e, if time < now then time else now);
    case UserDone(u) => EventSpends(rows, e, u.now);
  }

  /** What an event does to a row no user cancels or reschedules meanwhile. */
  lemma UndisturbedRow(rows: Table, e: Event, id: Id)
    requires CanHappen(rows, e) && EventLeaves(rows, e, id) && Keyed(rows) && CountsOk(rows) && id in rows
    ensures var rows' := Next(rows, e);
            && id in rows' && rows'[id].retryCount >= rows[id].retryCount
            && (rows[id].status in {Sent, Failed} ==> rows'[id] == rows[id])
            && (rows[id].status == Pending && e.RunDone? && id in e.ids ==>
                  || rows'[id].status in {Sent, Failed}
                  || (rows'[id].status == Pending && rows'[id].scheduledAt == rows[id].scheduledAt
                      && rows'[id].retryCount == rows[id].retryCount + 1))
            && (rows[id].status == Pending && !(e.RunDone? && id in e.ids) ==>
                  rows'[id].status == Pending && rows'[id].scheduledAt == rows[id].scheduledAt
                  && rows'[id].retryCount == rows[id].retryCount)
  {
    match e
    case RunDone(_, ids, meanwhile, reply) =>
      var time := Earliest(meanwhile);
      UsersKeepAll(rows, meanwhile, time);
      LeftUnmoved(rows, meanwhile, id);
    case UserDone(u) => UserKeeps(rows, u, u.now);
  }

  /** A run takes the whole backlog, or a full batch of it. */
  lemma RunTakesBacklogFirst(rows: Table, now: int, ids: seq<Id>, time: int)
    requires IsSelection(rows, now, ids) && now >= time
    ensures Backlog(rows, time) <= AsSet(ids)
            || (|ids| == PROCESS_BATCH_SIZE && AsSet(ids) <= Backlog(rows, time))
  {
    if id :| id in Backlog(rows, time) && id !in ids {
      assert IsDue(rows, id, now);
      forall x <- ids ensures x in Backlog(rows, time) {
        var i :| 0 <= i < |ids| && ids[i] == x;
        assert IsDue(rows, ids[i], now);
      }
    }
  }

  /** A selection takes all due rows, or 100 of them. */
  lemma SelectionSize(rows: Table, now: int, ids: seq<Id>)
    requires IsSelection(rows, now, ids)
    ensures |ids| == if |Backlog(rows, now)| <= 100 then |Backlog(rows, now)| else 100
  {
    var due := Backlog(rows, now);
    DistinctSize(ids);
    forall id <- AsSet(ids) ensures id in due {
      var i :| 0 <= i < |ids| && ids[i] == id;
      assert IsDue(rows, ids[i], now);
    }
    RunTakesBacklogFirst(rows, now, ids, now);
    SubsetSize(AsSet(ids), due);
    assert due <= AsSet(ids) ==> due == AsSet(ids);
  }

  // ---------------------------------------------------------------- what a waiting row costs

  /** Row id is in the backlog throughout. */
  ghost predicate Waits(rows: Table, events: seq<Event>, id: Id, time: int)
    decreases |events|
  {
    && id in Backlog(rows, time)
    && (events == [] || Waits(Next(rows, events[0]), events[1..], id, time))
  }

  /** The credits of ids after an event that takes `taken` of them. */
  lemma CreditsSpent(rows: Table, e: Event, rows': Table, time: int, ids: set<Id>, taken: set<Id>)
    requires Spends(rows, e, rows', time) && taken <= ids
    requires taken == {} || (e.RunDone? && taken <= AsSet(e.ids))
    ensures |Credits(rows', ids)| + |taken| <= |Credits(rows, ids)|
  {
    var before, after, last := Credits(rows, ids), Credits(rows', ids), LastCredits(rows, taken);
    LastCreditsSize(rows, taken);
    forall p <- last ensures p in before {
      assert Left(rows', p.0) + 1 <= Left(rows, p.0);
    }
    forall p <- after ensures p in before && p !in last {
      assert Left(rows', p.0) <= Left(rows, p.0);
    }
    SubsetSize(after, before - last);
    assert |before - last| == |before| - |last|;
  }

  /**
   While a row waits, each run either counts a retry of it or takes 100 credits from the other rows that
   were in the backlog or came into it late.
   */
  lemma {:induction false} WaitingCosts(rows: Table, events: seq<Event>, id: Id, time: int, watched: set<Id>)
    requires Keyed(rows) && CountsOk(rows) && History(rows, events) && NotBefore(events, time)
    requires Waits(rows, events, id, time) && Backlog(rows, time) + Late(events) <= watched
    ensures id in rows && id in Final(rows, events)
    ensures PROCESS_BATCH_SIZE * Runs(events)
            <= |Credits(rows, watched - {id})|
               + PROCESS_BATCH_SIZE * (Final(rows, events)[id].retryCount - rows[id].retryCount)
    decreases |events|
  {
    if events != [] {
      var e := events[0];
      var rows', others := Next(rows, e), watched - {id};
      assert e in events && EventNotBefore(e, time);
      EventSpends(rows, e, time);
      var taken := {};
      if e.RunDone? && id !in e.ids {
        RunTakesBacklogFirst(rows, e.now, e.ids, time);
        DistinctSize(e.ids);
        taken := AsSet(e.ids);
      }
      CreditsSpent(rows, e, rows', time, others, taken);
      WaitingCosts(rows', events[1..], id, time, watched);
    }
  }

  // ---------------------------------------------------------------- bounded overtaking

  lemma {:induction false} NotPickedWaits(rows: Table, events: seq<Event>, id: Id, time: int)
    requires Keyed(rows) && CountsOk(rows) && id in Backlog(rows, time)
    requires History(rows, events) && Undisturbed(rows, events, id) && !Picked(events, id)
    ensures Waits(rows, events, id, time)
    ensures id in Final(rows, events) && Final(rows, events)[id].retryCount == rows[id].retryCount
    decreases |events|
  {
    if events != [] {
      var e := events[0];
      assert e in events;
      assert e.RunDone? ==> id !in e.ids;
      UndisturbedRow(rows, e, id);
      EventKeeps(rows, e);
      NotPickedWaits(Next(rows, e), events[1..], id, time);
    }
  }

  /**
   A due row that no user cancels or reschedules, with k other rows PENDING and scheduled no later than it
   or moved to a time already reached meanwhile, is selected within k / 25 + 1 runs, whatever the replies,
   the ties, and whatever else users write.
   */
  lemma BoundedOvertaking(rows: Table, events: seq<Event>, id: Id)
    requires Keyed(rows) && CountsOk(rows) && id in rows && rows[id].status == Pending
    requires History(rows, events) && NotBefore(events, rows[id].scheduledAt) && Undisturbed(rows, events, id)
    requires Runs(events) >= |Backlog(rows, rows[id].scheduledAt) + Late(events) - {id}| / 25 + 1
    ensures Picked(events, id)
  {
    var time := rows[id].scheduledAt;
    if !Picked(events, id) {
      var watched := Backlog(rows, time) + Late(events);
      NotPickedWaits(rows, events, id, time);
      WaitingCosts(rows, events, id, time, watched);
      CreditsBound(rows, watched - {id});
    }
  }

  /** A selected row is claimed: it ends as SENT or FAILED, or comes back with one more retry counted. */
  lemma {:induction false} PickedIsClaimed(rows: Table, events: seq<Event>, id: Id)
    requires Keyed(rows) && CountsOk(rows) && History(rows, events) && Undisturbed(rows, events, id) && Picked(events, id)
    requires id in rows && rows[id].status == Pending
    ensures var rows' := Final(rows, events);
            id in rows' && (rows'[id].status in {Sent, Failed} || rows'[id].retryCount > rows[id].retryCount)
    decreases |events|
  {
    var e, rows' := events[0], Next(rows, events[0]);
    UndisturbedRow(rows, e, id);
    EventKeeps(rows, e);
    if e.RunDone? && id in e.ids {
      SettledStays(rows', events[1..], id);
    } else {
      PickedIsClaimed(rows', events[1..], id);
    }
  }

  /** Undisturbed rows never lose a counted retry, and SENT and FAILED rows stay. */
  lemma {:induction false} SettledStays(rows: Table, events: seq<Event>, id: Id)
    requires Keyed(rows) && CountsOk(rows) && History(rows, events) && Undisturbed(rows, events, id) && id in rows
    ensures var rows' := Final(rows, events);
            && id in rows' && rows'[id].retryCount >= rows[id].retryCount
            && (rows[id].status in {Sent, Failed} ==> rows'[id] == rows[id])
    decreases |events|
  {
    if events != [] {
      UndisturbedRow(rows, events[0], id);
      EventKeeps(rows, events[0]);
      SettledStays(Next(rows, events[0]), events[1..], id);
    }
  }

  // ---------------------------------------------------------------- draining

  /** A row that waits throughout sees at most k / 25 + 3 runs, with k other rows in the backlog or late. */
  lemma WaitingEnds(rows: Table, events: seq<Event>, id: Id, time: int)
    requires Keyed(rows) && CountsOk(rows) && History(rows, events) && NotBefore(events, time)
    requires Waits(rows, events, id, time)
    ensures Runs(events) <= |Backlog(rows, time) + Late(events) - {id}| / 25 + RETRY_LIMIT
  {
    var watched := Backlog(rows, time) + Late(events);
    WaitingCosts(rows, events, id, time, watched);
    CreditsBound(rows, watched - {id});
    CountsStayOk(rows, events);
  }

  lemma {:induction false} CountsStayOk(rows: Table, events: seq<Event>)
    requires Keyed(rows) && CountsOk(rows) && History(rows, events)
    ensures Keyed(Final(rows, events)) && CountsOk(Final(rows, events))
    decreases |events|
  {
    if events != [] {
      EventKeeps(rows, events[0]);
      CountsStayOk(Next(rows, events[0]), events[1..]);
    }
  }

  /** An undisturbed backlog row is settled in the end, or waited throughout. */
  lemma {:induction false} SettledOrWaited(rows: Table, events: seq<Event>, id: Id, time: int)
    requires Keyed(rows) && CountsOk(rows) && History(rows, events) && Undisturbed(rows, events, id)
    requires id in Backlog(rows, time)
    ensures Waits(rows, events, id, time)
            || (id in Final(rows, events) && Final(rows, events)[id].status in {Sent, Failed})
    decreases |events|
  {
    if events != [] {
      var rows' := Next(rows, events[0]);
      UndisturbedRow(rows, events[0], id);
      EventKeeps(rows, events[0]);
      if id in Backlog(rows', time) {
        SettledOrWaited(rows', events[1..], id, time);
      } else {
        SettledStays(rows', events[1..], id);
      }
    }
  }

  /** A row that is in the backlog in the end, and was not moved there late, waited throughout. */
  lemma {:induction false} LeftoverWaited(rows: Table, events: seq<Event>, id: Id, time: int)
    requires Keyed(rows) && CountsOk(rows) && History(rows, events) && NotBefore(events, time)
    requires id in Backlog(Final(rows, events), time) && id !in Late(events)
    ensures Waits(rows, events, id, time)
    decreases |events|
  {
    if events != [] {
      assert events[0] in events && EventNotBefore(events[0], time);
      EventSpends(rows, events[0], time);
      LeftoverWaited(Next(rows, events[0]), events[1..], id, time);
    }
  }

  /**
   With n rows PENDING and due at `time` or moved to a time already reached meanwhile, any n / 25 + 4
   fault-free runs from then on leave none of them PENDING and due but those moved late, whatever the
   replies; and each that no user cancelled or rescheduled is SENT or FAILED.  Rows that fall due later and
   whatever else users write, between runs or inside one, do not delay this.
   */
  lemma DrainBound(rows: Table, events: seq<Event>, time: int)
    requires Keyed(rows) && CountsOk(rows) && History(rows, events) && NotBefore(events, time)
    requires Runs(events) >= |Backlog(rows, time) + Late(events)| / 25 + 4
    ensures Backlog(Final(rows, events), time) <= Late(events)
    ensures forall id <- Backlog(rows, time) :: Undisturbed(rows, events, id) ==>
              id in Final(rows, events) && Final(rows, events)[id].status in {Sent, Failed}
  {
    var watched := Backlog(rows, time) + Late(events);
    forall id ensures !Waits(rows, events, id, time) {
      if Waits(rows, events, id, time) {
        SubsetSize(watched - {id}, watched);
        WaitingEnds(rows, events, id, time);
      }
    }
    forall id <- Backlog(Final(rows, events), time) ensures id in Late(events) {
      if id !in Late(events) {
        LeftoverWaited(rows, events, id, time);
      }
    }
    forall id <- Backlog(rows, time) | Undisturbed(rows, events, id)
      ensures id in Final(rows, events) && Final(rows, events)[id].status in {Sent, Failed}
    {
      SettledOrWaited(rows, events, id, time);
    }
  }
}
