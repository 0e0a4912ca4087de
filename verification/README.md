# Verified model of the scheduling service

A Dafny model of the parts of the service whose correctness depends on state, interleaving or parsing:

- **Scheduled-message delivery** (`Messages`, `Protocol`, `ProtocolSafety`, `ProtocolTheorems`, `SplitDelivery`,
  `LeaseSafety`, `ProtocolWitness`): any number of cron runs on any number of pods, one Redis lease, one table, crashes, failing
  saves, and users creating, updating and cancelling messages, as a step machine. Safety holds in every reachable
  state; every place where a promise ends has a concrete run.
- **Progress** (`Ticks`, `TickRefinement`, `CalmRuns`): how many fault-free runs drain a backlog or reach a row, by a
  measure on remaining claims, with users acting between and inside the runs; and the proof that such runs of the
  machine are exactly the Ticks the bounds speak of.
- **The service as objects** (`MessageService`, `ServiceRefinement`): entities, repository, lock and service methods
  that update them in place, and the proof that every invocation is a run of the machine.
- **JWKS cache** (`Jwks`, `JwksTheorems`, `JwksService`): three interleaving loaders, the guard's key selection, the
  reload throttle, startup budget and shutdown.
- **Webhook signatures** (`Numerals`, `Webhook`): the header as a printer and a parser.
- **Retry** (`Retry`), **cron expressions** (`Cron`), **queues and schedules** (`Queues`, `QueueService`, `Schedules`).

`Wrappers` and `Sets` hold shared helpers.

`dafny verify dfyconfig.toml` checks everything.

## Assumptions

- An update or cancel is one step, or a read and a later save as in the code. In the second form the safety theorems and
  the progress bounds ask that each save finds its row as it was read. `ProtocolWitness.SplitUpdateDeliversTwice` shows
  that without this a message is sent twice, and `SplitDelivery.DeliveryBoundAnyUsers` how often it can be.
- Each repository call and each Redis call takes effect at once, and a failed one leaves the table or lock as it was.
- `RETURNING *` yields full entities, one per updated row, in any order. All pods read one clock.
- `accepted` counts the calls a run saw succeed, `delivered` the calls the messaging service carried out; a call carried
  out and then reported as an error counts as a lost reply.
- BullMQ keeps a job's record under its id until it is removed or dropped some time after it finished, refuses to remove
  a job that a worker holds, puts a job back when its worker throws (3 attempts) or dies (5 times,
  `src/modules/queues/processors/job.processor.ts:10-13`), and keeps both counts when a failed job is retried by hand. A
  job counts as held until it is finished or put back. An add that throws has not added.
- HMAC-SHA256 is an arbitrary function to 32 bytes; importing a JWK is an
  arbitrary partial function; a digit string becomes a JavaScript number by a function that is exact up to 2^53.
- Clock readings, replies, faults, jitter and fetch answers are parameters or step arguments. Timers never fire early.

## Findings

- The lease alone does not exclude two runs: the cron decorator does not wait for the previous tick and the owner id is
  per process, so a late release of one run deletes the lock of the pod's next one (`LeaseSafety.LeaseKeptExactly`,
  `ProtocolWitness.OverlapBreaksLease`); over a whole run a second holder is excluded exactly when no release is of that
  kind (`LeaseSafety.ExclusiveRunsExactly`). Delivery does not depend on it: the conditional UPDATE does the work. The
  comment at `src/modules/scheduled-messages/services/scheduled-messages.service.ts:42-43` holds between pods only.
- A row rescheduled between a run's select and its claim is sent at once (`ProtocolWitness.RescheduledRowIsSentEarly`).
- A failed save of SENT makes the message go out again (`ProtocolWitness.LostSaveDeliversTwice`); no more often than
  such saves fail (`ProtocolTheorems.DeliveryBound`).
- PROCESSING rows of a crashed run, or of a run ended by a failing save in the catch branch, stay so
  (`ProtocolTheorems.OrphanForever`), and these are the only ones that cannot leave it
  (`ProtocolTheorems.ProcessingLeavesExactly`).
- `update` checks the new time when it reads the row, so its save can move a row to a time that has passed
  (`ProtocolWitness.SplitRescheduleIntoThePast`), exactly when it comes no sooner after the read than the new time does
  (`ProtocolTheorems.RescheduledInTimeExactly`). Such rows count in the progress bounds like rows that were due.
- A split save over a row that is PROCESSING or SENT can allow one more delivery, and no other split save can
  (`SplitDelivery.DeliveryBoundAnyUsers`).
- The comment at `src/modules/scheduled-messages/services/scheduled-messages.service.ts:326` lists timeouts as transient, but the messaging client rethrows its own timeout without a
  code (`src/modules/grpc/clients/messaging.client.ts:60-64`), so it is permanent (`Messages.TransientExactly`).
- A cancel stops a ONCE schedule except when it falls between the save and the add of `scheduleJob`
  (`Schedules.LateAddStarts`), while a worker holds the job, or when `getJob` or `remove` throws on its queue while its
  record waits or has failed, which `removeJob` only logs: then the record stays, and the job can start
  (`Schedules.LeftRecordStarts`). These are the only exceptions (`Schedules.CancelStopsExactly`).
- `retryFailedJobs` starts a job beyond its attempts, once each time it is called: 8 + n starts are reached with n calls
  (`Schedules.StartsAttained`), and never more (`Schedules.StartsBounded`).
- `verify` also accepts leading zeros in the timestamp and one stray hex digit at the end
  (`Webhook.LeadingZeroVerifies`, `Webhook.StrayDigitVerifies`), and nothing else than these (`Webhook.VerifyExactly`).

## Model

| member | source | states |
|---|---|---|
| ProtocolTheorems.ClaimExclusivity | src/modules/scheduled-messages/services/scheduled-messages.service.ts:196-271 | In every reachable state (any number of overlapping runs, expired leases, crashes, failed saves, split user operations whose saves find their rows as read) no message is in the unfinished claims of two runs, each claimed message is the row itself, still PROCESSING, and every PROCESSING row is claimed by some run. Nothing is assumed of the lock: the conditional UPDATE gives this |
| ProtocolTheorems.OrphanForever | src/modules/scheduled-messages/services/scheduled-messages.service.ts:202-224 | A row left PROCESSING by a run that crashed or ended on a failed save keeps every column and every count in all continuations: it is never claimed or sent again and never recovered |
| ProtocolTheorems.ProcessingLeavesExactly | src/modules/scheduled-messages/services/scheduled-messages.service.ts:195-321 | A PROCESSING row can leave PROCESSING in some continuation if and only if a run that has it among its claims is still before its `finally` |
| ProtocolTheorems.DeliveryBound | src/modules/scheduled-messages/services/scheduled-messages.service.ts:273-321 | Accepted sends of a message are at most 1 plus its failed saves of SENT; calls the messaging service carried out at most that plus the calls whose reply was lost; outside PROCESSING both counts are exact |
| SplitDelivery.DeliveryBoundAnyUsers | src/modules/scheduled-messages/services/scheduled-messages.service.ts:118-166 | In every run whatever, with updates and cancels saved over any row, accepted sends are at most 1 plus the lost saves of SENT plus the split saves that found the row PROCESSING or SENT; calls carried out at most that plus the lost replies |
| SplitDelivery.StepKeepsBooks | src/modules/scheduled-messages/services/scheduled-messages.service.ts:118-321 | The bookkeeping behind it, kept by every step without any assumption: each claim still to be delivered and each row still to be claimed is a ticket, and only a lost save, a lost reply or a save over a row in delivery issues one |
| ProtocolTheorems.AttemptAccounting | src/modules/scheduled-messages/services/scheduled-messages.service.ts:292-312 | Faults included, send attempts are at most retryCount + 1 and at most 4; exactly retryCount for a PENDING or CANCELLED row and retryCount + 1 for a SENT or FAILED one |
| ProtocolWitness.FourAttempts | src/modules/scheduled-messages/services/scheduled-messages.service.ts:26-26 | The attempt bound is attained and the row fails no sooner: in a concrete run it is PENDING with retryCount 1, 2, 3 after one, two, three transient rejections, and FAILED after the fourth |
| ProtocolTheorems.NeverEarly | src/modules/scheduled-messages/services/scheduled-messages.service.ts:238-282 | Each send starts no earlier than the scheduledAt its run's select saw, sends the row as it is, and is not early for the current scheduledAt unless a reschedule committed between that select and the claim; after one the claimed time is past the select's clock, unless a split reschedule was saved too late |
| ProtocolTheorems.NeverBeforeRequested | src/modules/scheduled-messages/services/scheduled-messages.service.ts:67-79 | In any continuation of an accepted creation no run sends the message before the time asked for, until a reschedule of it commits |
| ProtocolTheorems.EarlyExactlyIfRescheduled | src/modules/scheduled-messages/services/scheduled-messages.service.ts:122-146 | With user operations in one step, the claimed time is past the select's clock if and only if a reschedule committed between the select and the claim |
| ProtocolTheorems.RescheduledInTimeExactly | src/modules/scheduled-messages/services/scheduled-messages.service.ts:122-146 | A split reschedule whose save finds its row as read leaves it in the future if and only if the save comes sooner after the read than the new time does; the new time was in the future and within a year at the read |
| ProtocolTheorems.SplitAtOnce | src/modules/scheduled-messages/services/scheduled-messages.service.ts:118-146 | A split operation whose save follows its read at once is the operation in one step |
| ProtocolTheorems.StepFollowsEdges | src/modules/scheduled-messages/services/scheduled-messages.service.ts:120-166 | The status machine: one step of anyone, a split save included if it finds its row as read, moves a row only along the listed edges and changes no other column on the way |
| ProtocolTheorems.RowsConserved | src/modules/scheduled-messages/services/scheduled-messages.service.ts:146-163 | Over any continuation rows are never lost and keep owner and id, SENT, FAILED and CANCELLED rows never change in any column, retryCount never decreases and stays at most 3, and scheduledAt changes only through a PENDING state |
| ProtocolTheorems.RejectionOutcome | src/modules/scheduled-messages/services/scheduled-messages.service.ts:292-312 | Whatever others do before the run saves, a rejected send fails the row exactly when the error is permanent or retryCount is 3, and otherwise puts it back to PENDING with one more retry and no other change |
| ProtocolSafety.StepKeepsInv | src/modules/scheduled-messages/services/scheduled-messages.service.ts:195-321 | Each step, faults and split user operations included, keeps the ownership and counting invariant the promises above rest on |
| ProtocolSafety.ReachableInv | src/modules/scheduled-messages/services/scheduled-messages.service.ts:195-321 | That invariant holds after every finite run from an empty system |
| Messages.TransientExactly | src/modules/scheduled-messages/services/scheduled-messages.service.ts:329-374 | Closed form of the classification with its codes: a listed code decides alone, otherwise only the first present HTTP status counts, and it is transient exactly for 408, 429 and 500 upwards; the client's own timeout is permanent |
| Messages.CreatedExactly | src/modules/scheduled-messages/services/scheduled-messages.service.ts:71-86 | A message is created exactly for a time after now and at most 365 days ahead, PENDING, with retryCount 0 and everything as asked for |
| Messages.UpdatedExactly | src/modules/scheduled-messages/services/scheduled-messages.service.ts:118-146 | An update is accepted exactly for the owner's PENDING row and an acceptable time, if any; the row then has each value named and keeps the others |
| Messages.CancelledExactly | src/modules/scheduled-messages/services/scheduled-messages.service.ts:153-163 | A cancel is accepted exactly for the owner's PENDING row, and changes its status alone |
| Messages.SelectionMeans | src/modules/scheduled-messages/services/scheduled-messages.service.ts:240-248 | At most 100 distinct due rows in order of time; a due row is left out only when 100 no later ones are taken |
| Ticks.SelectionSize | src/modules/scheduled-messages/services/scheduled-messages.service.ts:240-248 | A selection holds all due rows, or 100 of them |
| LeaseSafety.LockLostOnlyToOwner | src/modules/scheduled-messages/services/scheduled-messages.service.ts:391-400 | A live lock disappears only through a release by a run of the pod named in it |
| LeaseSafety.AcquiredExactly | src/modules/scheduled-messages/services/scheduled-messages.service.ts:381-384 | A tick starts a run exactly when no lock is live, and that run's lock is its pod's for 55 s |
| LeaseSafety.LeaseKeptExactly | src/modules/scheduled-messages/services/scheduled-messages.service.ts:44-56 | A step keeps the agreement between lock and leases if and only if it is not a release that finds its own pod's id in a lock set by another run |
| LeaseSafety.ExclusionKeptExactly | src/modules/scheduled-messages/services/scheduled-messages.service.ts:44-56 | From agreement, a step leaves a state in which no acquisition can make a second holder if and only if it is no such stale release |
| LeaseSafety.ExclusiveRunsExactly | src/modules/scheduled-messages/services/scheduled-messages.service.ts:195-224 | The same over whole runs: a second holder is excluded throughout if and only if no release is stale |
| LeaseSafety.LeaseSafetyWithoutOverlap | src/modules/scheduled-messages/services/scheduled-messages.service.ts:195-224 | If no run of a pod starts while an earlier one of that pod is unfinished (ticks the lock refuses start none), at most one run at any time has an unexpired, unreleased lease, and the lock is that lease |
| ProtocolWitness.OverlapBreaksLease | src/modules/scheduled-messages/services/scheduled-messages.service.ts:195-224 | A concrete run in which one pod's runs overlap and two runs hold unexpired leases at once |
| ProtocolWitness.RescheduledRowIsSentEarly | src/modules/scheduled-messages/services/scheduled-messages.service.ts:240-267 | A concrete run, every user operation in one step, in which a row rescheduled between select and claim is about to be sent before its scheduledAt |
| ProtocolWitness.SplitUpdateDeliversTwice | src/modules/scheduled-messages/services/scheduled-messages.service.ts:118-146 | A concrete run in which an update split into read and save overwrites SENT with PENDING and the message is accepted twice without any fault: a save that finds its row changed breaks the delivery bound |
| ProtocolWitness.SplitRescheduleIntoThePast | src/modules/scheduled-messages/services/scheduled-messages.service.ts:126-146 | A concrete run in which a split update, its row unchanged, is saved after its new time has passed |
| ProtocolWitness.LostSaveDeliversTwice | src/modules/scheduled-messages/services/scheduled-messages.service.ts:284-301 | A concrete run attaining the delivery bound: one failed save of SENT, two accepted sends |
| Ticks.BoundedOvertaking | src/modules/scheduled-messages/services/scheduled-messages.service.ts:240-248 | A due PENDING row that no user cancels or reschedules, with k other rows PENDING and scheduled no later or moved late, is selected within k/25 + 1 fault-free runs, whatever the replies, the ties and whatever else users write, between runs or between the select and the claim of one |
| Ticks.WaitingCosts | src/modules/scheduled-messages/services/scheduled-messages.service.ts:240-300 | The measure behind both bounds: while a row waits, each run either counts a retry of it or takes 100 of the at most 4 claims each other row has that was in the backlog or moved late |
| Ticks.RunSpends | src/modules/scheduled-messages/services/scheduled-messages.service.ts:240-300 | Each row a run selects loses at least one of its remaining claims, claimed by the run or withdrawn by a user before the claim; no row regains one |
| Ticks.PickedIsClaimed | src/modules/scheduled-messages/services/scheduled-messages.service.ts:254-312 | A selected row that no user cancels or reschedules ends SENT or FAILED or comes back with one more retry counted |
| Ticks.DrainBound | src/modules/scheduled-messages/services/scheduled-messages.service.ts:237-321 | With n rows due or moved late meanwhile, after n/25 + 4 fault-free runs none of them is PENDING and due but those moved late, and each that no user cancelled or rescheduled is SENT or FAILED, although rows keep falling due and being written, also while a run is under way |
| TickRefinement.CalmRun | src/modules/scheduled-messages/services/scheduled-messages.service.ts:195-321 | Any run of the step machine without faults, with ticks of other pods refused by its lock and users acting beside it, however all steps and the clock interleave, is one Tick of a selection among user events; it disturbs no row the users leave in place and moves none late that they do not |
| TickRefinement.UserBesideLoop | src/modules/scheduled-messages/services/scheduled-messages.service.ts:113-166 | While a run sends, a user operation that succeeds does to the table as it will be after the run what it does to the table now; it never meets a claimed row |
| TickRefinement.CalmHistoryIsHistory | src/modules/scheduled-messages/services/scheduled-messages.service.ts:195-321 | Any sequence of such runs, refused ticks and user operations is a history of Ticks and user events, run for run |
| TickRefinement.MachineDrains | src/modules/scheduled-messages/services/scheduled-messages.service.ts:237-321 | The drain bound from every reachable state of the machine, faults in its past included, with users acting and ticks being refused between the runs and inside them |
| TickRefinement.MachineDoesNotStarve | src/modules/scheduled-messages/services/scheduled-messages.service.ts:237-312 | The overtaking bound from every reachable state of the machine, with users acting and ticks being refused between the runs and inside them |
| CalmRuns.EveryTickIsARun | src/modules/scheduled-messages/services/scheduled-messages.service.ts:195-321 | Conversely, with the lock free every Tick, for any selection and any replies, is the effect of some undisturbed run |
| CalmRuns.ServiceRecovers | src/modules/scheduled-messages/services/scheduled-messages.service.ts:16-16 | From every reachable state, once 55 s pass without a new acquisition, a run of any pod can take the lock and run to its end: no crash or lost release blocks the service for good |
| MessageService.ScheduledMessagesService.Create | src/modules/scheduled-messages/services/scheduled-messages.service.ts:67-97 | Accepted exactly for a time within 365 days from now with no database fault; then the row written is PENDING, with retryCount 0 and everything as asked for; otherwise the right error and no write |
| MessageService.ScheduledMessagesService.FindOwnedOrThrow | src/modules/scheduled-messages/services/scheduled-messages.service.ts:175-189 | A row is found exactly for its owner, and as it is; a foreign row, a missing row and an empty user give the same not-found, an empty user even when the database fails |
| MessageService.ScheduledMessagesService.Update | src/modules/scheduled-messages/services/scheduled-messages.service.ts:113-151 | Accepted exactly for the owner's PENDING row, an acceptable time, if any, and no database fault; then the row has each value named and keeps the others; otherwise no write |
| MessageService.ScheduledMessagesService.Cancel | src/modules/scheduled-messages/services/scheduled-messages.service.ts:153-166 | Accepted exactly for the owner's PENDING row and no database fault; then its status alone changes; otherwise no write |
| MessageService.Repository.FindDue | src/modules/scheduled-messages/services/scheduled-messages.service.ts:240-248 | At most 100 distinct due PENDING ids in order of scheduledAt, ties in any order; one is left out only when 100 no later ones are taken |
| MessageService.Repository.ClaimPending | src/modules/scheduled-messages/services/scheduled-messages.service.ts:258-270 | The conditional update: exactly the still PENDING candidates become PROCESSING and are returned, each once |
| MessageService.ScheduledMessagesService.SendMessage | src/modules/scheduled-messages/services/scheduled-messages.service.ts:273-321 | One call with the row's own conversation, owner, content, metadata and time; the row saved for any reply and any failing saves, with a limit of 3 retries, a failed save of SENT going through the retry branch; and when it throws |
| MessageService.OutcomeExactly | src/modules/scheduled-messages/services/scheduled-messages.service.ts:284-312 | What one send leaves, spelled out by reply, failing saves and retryCount, and when it throws |
| MessageService.ScheduledMessagesService.SendLoop | src/modules/scheduled-messages/services/scheduled-messages.service.ts:214-216 | The loop calls for and settles the batch in order up to the first message whose catch branch throws |
| MessageService.AttemptedExactly | src/modules/scheduled-messages/services/scheduled-messages.service.ts:214-216 | The messages attempted are those up to the first throw, and it |
| MessageService.RowAfter | src/modules/scheduled-messages/services/scheduled-messages.service.ts:214-321 | A message attempted without a throw has its outcome in its row; the one that throws and those after it keep theirs |
| MessageService.RowBeside | src/modules/scheduled-messages/services/scheduled-messages.service.ts:214-321 | No row outside the batch changes |
| MessageService.ScheduledMessagesService.ProcessDueMessages | src/modules/scheduled-messages/services/scheduled-messages.service.ts:195-271 | Table, lock and calls after an invocation with any faults, as the relation Invocation |
| MessageService.FaultFreeBatchIsTick | src/modules/scheduled-messages/services/scheduled-messages.service.ts:254-321 | Without faults, claim and loop together are one Tick |
| ServiceRefinement.SendIsSteps | src/modules/scheduled-messages/services/scheduled-messages.service.ts:273-321 | Every outcome of SendMessage, faults included, is reached by steps of the machine |
| ServiceRefinement.InvocationIsARun | src/modules/scheduled-messages/services/scheduled-messages.service.ts:195-271 | Whatever an invocation of the service class does to table and lock, under any faults, some run of the machine does |
| ServiceRefinement.InvocationKeepsPromises | src/modules/scheduled-messages/services/scheduled-messages.service.ts:195-271 | An invocation of the service class on a reachable state, under any faults, ends in a reachable state, loses no row, lowers no retry counter and leaves SENT, FAILED and CANCELLED rows as they were |
| Jwks.KidMapsToLast | src/modules/jwks/jwks.service.ts:93-111 | A kid maps to the last importable eligible key carrying it (a missing kid is 'default'), and to nothing if there is none |
| Jwks.FirstInserted | src/modules/jwks/jwks.service.ts:100-116 | The first inserted kid is that of the first importable eligible key, and a document without one gives an empty table |
| Jwks.LoadedExactly | src/modules/jwks/jwks.service.ts:93-113 | A load succeeds exactly on a document with an importable EC P-256 key for signatures that has both coordinates |
| Jwks.InstalledExactly | src/modules/jwks/jwks.service.ts:100-116 | A successful load installs under each kid the last such key that carries it, nothing else, and as primary the one under the kid of the first such key |
| JwksTheorems.CacheIsLastSuccessfulLoad | src/modules/jwks/jwks.service.ts:115-122 | Under every interleaving of the three loaders, keyMap and primaryPem are those of the load that last completed successfully, failed loads leave no trace, and the table is empty exactly while not ready |
| JwksTheorems.StaysReady | src/modules/jwks/jwks.service.ts:191-193 | Readiness never reverts |
| JwksTheorems.GuardKey | src/modules/auth/jwt-auth.guard.ts:52-75 | After any run, the key a token is verified with: by kid, the last importable eligible key with it in the last successfully loaded document; without kid, the key stored under the kid of that document's first importable key |
| JwksTheorems.ReloadThrottle | src/modules/jwks/jwks.service.ts:200-227 | Before destroy an in-flight reload and a running debounce timer never coexist, and any window of W ms holds at most W/5000 + 1 reload starts, whatever tokens arrive |
| JwksTheorems.ThrottleAttained | src/modules/jwks/jwks.service.ts:200-227 | The throttle bound is attained: for every n some run has n reload starts exactly 5000 ms apart |
| JwksTheorems.RequestExactly | src/modules/auth/jwt-auth.guard.ts:52-65 | A token starts a reload exactly when it names a kid the table does not have, no reload is in flight and no debounce timer runs |
| JwksTheorems.StartupBudget | src/modules/jwks/jwks.service.ts:124-153 | Startup makes at most 3 loads and sleeps at most 2000 + 4000 ms, under every interleaving |
| JwksTheorems.StartupAttained | src/modules/jwks/jwks.service.ts:124-153 | The startup budget is attained: three failing loads with sleeps of exactly 2000 and 4000 ms, then a background sleep of 30000 ms |
| JwksTheorems.BackgroundLoadsAgain | src/modules/jwks/jwks.service.ts:155-169 | While the module is neither ready nor destroyed, the background loop loads again 30000 ms after a failed load |
| JwksTheorems.SuccessEndsLoop | src/modules/jwks/jwks.service.ts:128-162 | A successful load ends either loop, ready with the document's table |
| JwksTheorems.QuiescentAfterDestroy | src/modules/jwks/jwks.service.ts:41-51 | From any point of either loop, once destroyed no startup or background load begins |
| JwksTheorems.NoSleepAfterDestroy | src/modules/jwks/jwks.service.ts:41-51 | Nor does either loop set its timer again after destroy, in any continuation |
| JwksTheorems.DestroyedExactly | src/modules/jwks/jwks.service.ts:41-51 | Destroy sets the flag and clears both timers, and touches nothing else |
| JwksService.JwksService.OnModuleDestroy | src/modules/jwks/jwks.service.ts:41-51 | The fields after destroy: flag set, both timers cleared, cache and in-flight reload kept |
| JwksService.JwksService.BuildTable | src/modules/jwks/jwks.service.ts:100-111 | The import loop builds the table of the document |
| JwksService.JwksService.LoadPublicKey | src/modules/jwks/jwks.service.ts:53-122 | Succeeds exactly on a document with a usable key; then it installs the last one under each kid and the one under the first one's kid as primary; otherwise it throws and changes nothing |
| JwksService.JwksService.LoadPublicKeyWithRetry | src/modules/jwks/jwks.service.ts:124-153 | With the other loaders, the guard, the clock and destroy running at every await, the loop takes the fields where a run of the step machine takes them; it loads exactly up to the first success, at most three times, and leaves the module ready, destroyed or with the background loop asleep |
| JwksService.OthersKeepLoop | src/modules/jwks/jwks.service.ts:41-51 | Whatever else runs, only destroy touches the loop's timer, and readiness is kept |
| JwksService.JwksService.ScheduleReloadForUnknownKid | src/modules/jwks/jwks.service.ts:200-213 | A reload starts exactly when none is in flight and no debounce timer runs |
| JwksService.JwksService.ReloadFinally | src/modules/jwks/jwks.service.ts:219-226 | When a reload settles, the next one may start 5 s later at the earliest, and the cache is as the load left it |
| JwksService.JwtAuthGuard.SelectKey | src/modules/auth/jwt-auth.guard.ts:52-65 | For a named kid the key stored under it, otherwise the primary key; a reload starts exactly when a named kid is unknown, none is in flight and no debounce timer runs |
| Webhook.SignatureRoundTrip | src/common/webhook/webhook-hmac.service.ts:45-108 | For every body, timestamp below 2^53 and current time, a signature verifies for its body if and only if it is less than 300 s away |
| Webhook.SignedExactly | src/common/webhook/webhook-hmac.service.ts:45-53 | The header sign prints is the only one with the timestamp in canonical digits and just the 64 hex digits of the digest of timestamp, dot and body; the timestamp header repeats the timestamp |
| Webhook.VerifyExactly | src/common/webhook/webhook-hmac.service.ts:70-108 | What verify accepts, exactly: any header of the grammar within tolerance whose 64 hex digits are the recomputed ones, with at most one stray hex digit behind them |
| Webhook.StrayDigitVerifies | src/common/webhook/webhook-hmac.service.ts:95-107 | A signed header with any hex digit behind it verifies if and only if it is less than 300 s away |
| Webhook.LeadingZeroVerifies | src/common/webhook/webhook-hmac.service.ts:81-82 | So does a signed header with a zero before its timestamp |
| Webhook.MatchExactly | src/common/webhook/webhook-hmac.service.ts:12-12 | The header expression has at most one reading of a header, and the matcher finds it exactly when there is one |
| Webhook.PayloadInjective | src/common/webhook/webhook-hmac.service.ts:46-47 | Timestamp and body can be read back from the signed payload |
| Webhook.PayloadBinding | src/common/webhook/webhook-hmac.service.ts:81-107 | An accepted header carrying the digest of (t, body) was either accepted for that body at that timestamp, or the signed and the accepted payload are two with one HMAC; never both |
| Webhook.OtherBodyNeedsCollision | src/common/webhook/webhook-hmac.service.ts:70-108 | A signature made for one body is accepted for another if and only if its timestamp is within tolerance and the two payloads have one HMAC |
| Numerals.DecimalRoundTrip | src/common/webhook/webhook-hmac.service.ts:46-51 | Printing a natural number gives digits without leading zeros that parse back to it |
| Numerals.CanonicalIsPrinted | src/common/utils/cron.util.ts:4-5 | Every digit string without leading zeros is the print of its value |
| Numerals.HexRoundTrip | src/common/webhook/webhook-hmac.service.ts:46-47 | Bytes printed in hex decode to themselves |
| Numerals.HexDecoded | src/common/webhook/webhook-hmac.service.ts:95-96 | Decoding hex in pairs drops exactly an odd last digit |
| Retry.CalculateBackoffDelay | src/common/utils/retry.util.ts:15-29 | The sleep lies in the jitter window above the capped exponential delay |
| Retry.CappedExactly | src/common/utils/retry.util.ts:21-21 | The delay before jitter is the smaller of base * multiplier^(attempt - 1) and the cap |
| Retry.BackoffExactly | src/common/utils/retry.util.ts:23-28 | The jitter is a whole number from 0 up to, not including, a tenth of the delay, and 0 where that leaves none |
| Retry.ExecuteWithRetry | src/common/utils/retry.util.ts:31-74 | The operation is called exactly up to the first success, first non-retryable error or last attempt, that call's outcome is the result, and there is one backoff between calls; with no attempt allowed nothing is called |
| Retry.MayRetryExactly | src/common/utils/retry.util.ts:44-80 | An error may be retried exactly if no list is given or some entry is found in its name or its message |
| Retry.EachSleepBounded | src/common/utils/retry.util.ts:21-28 | Each sleep is between 0 and 11/10 of maxDelay |
| Retry.GeometricClosed | src/common/utils/retry.util.ts:21-21 | The closed form of the sum of the delays' factors |
| Retry.TotalSleepBounded | src/common/utils/retry.util.ts:31-74 | All sleeps of n attempts add up to at most 11/10 * base * (1 + m + ... + m^(n-2)), the series being (m^(n-1) - 1)/(m - 1), or n - 1 for m = 1, for every real multiplier m >= 0 and any jitter |
| Cron.RegexIsParser | src/common/utils/cron.util.ts:4-5 | The regular expression accepts exactly what the field parser parses |
| Cron.ParseExactlyPrints | src/common/utils/cron.util.ts:4-5 | Parsing yields a tree if and only if the tree is in range and prints to the string |
| Cron.RecogniserIsPrinterInverse | src/common/utils/cron.util.ts:4-15 | A string is accepted if and only if it is the print of a five-field tree in range, and that tree is unique |
| Cron.AcceptedExactly | src/common/utils/cron.util.ts:4-15 | Accepted are exactly five fields with single spaces, each a star, a number or a star-step, with minutes 0-59, hours 0-23, days 1-31, months 1-12 and weekdays 0-6, without leading zeros |
| Cron.ShorthandsExpand | src/common/utils/cron.util.ts:51-61 | Every shorthand expands to an accepted expression, and no shorthand is accepted itself |
| Cron.ShorthandsMean | src/common/utils/cron.util.ts:51-61 | What each shorthand means, field by field |
| QueueService.QueueService.AddJob | src/modules/queues/services/queue.service.ts:17-48 | A waiting job with three attempts is added to the named queue unless its id exists there; the other queues and entries stay |
| Queues.AddedExactly | src/modules/queues/services/queue.service.ts:17-48 | The same of the specification: one new record, waiting, with three attempts and five stalls left |
| QueueService.QueueService.RemoveJob | src/modules/queues/services/queue.service.ts:86-123 | The search over the three queues with its early return, past queues that throw |
| Queues.RemovedIsOne | src/modules/queues/services/queue.service.ts:90-119 | One turn of the search that removes something takes out exactly one entry, a record under the id that no worker holds or one repeatable job that carries it, for every pattern of throwing calls |
| Queues.RemovalFindsExactly | src/modules/queues/services/queue.service.ts:90-112 | A turn removes something if and only if an idle record carries the id and neither call on it throws, or there is no record, some repeatable job carries the id and none of its three calls throws |
| Queues.FirstQueueLoses | src/modules/queues/services/queue.service.ts:87-123 | The high queue is searched before the medium one before the low one, and only the first that yields something changes |
| Queues.RemovesAtMostOne | src/modules/queues/services/queue.service.ts:86-123 | Whatever the queues hold and whichever calls throw, at most one queue changes, and there exactly one entry that carries the id is gone |
| Schedules.CancelTakesOut | src/modules/queues/services/queue.service.ts:86-123 | In every state that keeps the invariant and whichever queue calls throw, the removal takes out the record of a cancelled ONCE schedule exactly if no worker holds it and neither call on its queue throws, wherever its priority put it, and changes nothing else |
| Schedules.StepKeepsInv | src/modules/scheduler/services/scheduler.service.ts:284-348 | Jobs and repeatable jobs stay in the queue of their schedule's priority under the ids they were added with |
| Schedules.SavedExactly | src/modules/scheduler/services/scheduler.service.ts:115-129 | A saved schedule is active, with nothing queued and its add ahead |
| Schedules.EnqueuedExactly | src/modules/scheduler/services/scheduler.service.ts:284-348 | Whatever its kind and priority, an added schedule gets exactly one new entry in the queue of its priority: ONCE under its own id, IMMEDIATE under a new one, CRON and INTERVAL a repeatable job carrying its id; everything else stays |
| Schedules.AddedStarts | src/modules/scheduler/services/scheduler.service.ts:284-311 | From there a worker can start every ONCE and every IMMEDIATE schedule |
| Schedules.CancelledExactly | src/modules/scheduler/services/scheduler.service.ts:275-279 | Cancelling marks the schedule inactive and enables the removal; it leaves the queues |
| Schedules.StartsBounded | src/modules/queues/services/queue.service.ts:20-28 | Over any run, throwing and dying workers included, a ONCE schedule starts at most 3 + 5 executions and one more for each retry of its failed job by hand |
| Schedules.StartsAttained | src/modules/queues/services/queue.service.ts:215-243 | For every n some run retries the failed job n times by hand and starts it 8 + n times |
| Schedules.CancelStopsExactly | src/modules/scheduler/services/scheduler.service.ts:266-282 | In every reachable state and whichever queue calls of the removal throw, no worker ever starts a cancelled ONCE schedule again, whatever workers and operators do, if and only if `scheduleJob` was past its add and its queue held no record, a completed one, or one that no worker held and neither call threw on |
| Schedules.LateAddStarts | src/modules/scheduler/services/scheduler.service.ts:126-129 | A schedule cancelled between the save and the add is still added and started |
| Schedules.HeldJobStarts | src/modules/queues/services/queue.service.ts:215-243 | A job a worker holds while its schedule is cancelled can start again, by its attempts or by `retryFailedJobs` |
| Schedules.LeftRecordStarts | src/modules/queues/services/queue.service.ts:113-119 | A record the removal leaves, unless completed, can start: it waits, or a worker holds it, or `retryFailedJobs` puts it back |
| Schedules.GoneForever | src/modules/scheduler/services/scheduler.service.ts:266-311 | Once its add is over and its record is gone or completed, a ONCE schedule is never started again in any continuation |

## Left out

- Liveness of PROCESSING rows of ended runs: the code recovers none, which `ProtocolTheorems.OrphanForever` proves.
- Saves that commit and still report failure.
- MessageService.ScheduledMessagesService.Cancel: takes the clock as a ghost argument only to name the event in its contract.
- TickRefinement.MachineDrains: no other run takes the lock inside a run, as one can when the run outlives its 55 seconds.
- ServiceRefinement.InvocationIsARun: covers invocations of the class that no other run interrupts; interleavings are in the step machine.
- The turns of the background loop as a method: it does not end, and is in the step machine of `Jwks` only.
- JwksTheorems.ReloadThrottle: holds up to destroy only; `scheduleReloadForUnknownKid` has no destroyed check, so later reloads are outside the throttle.
- Retry.CalculateBackoffDelay: a multiplier of 0 with an attempt below 1, a division by zero, is excluded; exact real arithmetic in place of doubles, and no upper limit on the range of `randomInt`.
- Webhook.SignatureRoundTrip: bodies are character sequences; UTF-8 encoding, and so the merging of lone surrogates, is not modelled.
- Schedules.CancelStopsExactly: ONCE schedules only and `removeJob` in one step; IMMEDIATE jobs carry no id, and pickups of repeatable jobs are not modelled.
- How many finished records are kept and when they are dropped (`removeOnComplete`, `removeOnFail`, `cleanQueue`): a record may go at any time after it finished.
- Pausing and resuming queues.
- Default case of `getQueueName` for a value outside the enumeration, and `executeJob`'s execution records.
- Token parsing, verification, revocation checks and the warning flag of the guard.
- `findAllByUser`, `findOne`, `toResponse`, `describeCronExpression`, `getNextExecutionTime`, time zones, date parsing.
- Controllers, DTO decorators, modules, logging, health, metrics, configuration, migrations.
