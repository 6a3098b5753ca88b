# A verified model of jubs

jubs keeps job semantics (run once per key, parents after children, all-or-nothing blocks, dead
records) on top of a key-value store and several racing processes. This project models the parts
where those guarantees are protocols spread over several functions, in Dafny 4.11, and proves them
over every interleaving, every tree and every input. `dafny verify dfyconfig.toml` checks all of it.

## How it is built

| modules | what they model |
|---|---|
| `Errors`, `KeyStore`, `Lease`, `LeaseRuns`, `LeaseOutcomes`, `LeaseSuccess`, `LeaseTiming`, `LeaseLanding` | the idempotency lease: the five store commands, the two stores that keep them, any number of workers as interleaved steps, what comes of their results, and the same steps against a clock |
| `Definition`, `JobId`, `Flow`, `FlowRead`, `FlowRun` | flows: composing the tree, the ids and the Redis reply, the refusals before a handler, and the stored tree over time |
| `Migration`, `Outbox`, `OutboxRuns`, `Atomic` | payload migration, the relay cycle and its loop, any number of relays that die anywhere, atomic blocks |
| `Runtime`, `DeliveryFacts`, `Dead`, `Replay`, `ReplayRuns`, `ReplayRaces` | how a delivery ends, burial, dead records through JSON, `dead.replay`, the freed key over every run, replays side by side |
| `Cancellation`, `CancelRuns`, `MemoryDriver` | cancellation marks in two drivers, marks over time, the in-memory driver |

State machines share one shape: `Exec(INIT, actions)` folds a list of actions, and an action that is
not enabled where it stands is passed over, so every list of actions is a run and a theorem over all
lists is a theorem over all interleavings. A command to a store is one atomic step. A promise is
named by the delivery whose handler body it is, and a body is alive, returned or threw. Tokens are
fresh: a delivery is named by the token it minted. Objects the source updates in place are classes,
loops are loops, and each is specified by a function the lemmas are about.

## What the proofs found

- An error a handler throws that carries somebody else's promise under `running` is followed like a
  timeout: the key is then settled by `complete`, with what the other body returned, although this
  body threw (`LeaseOutcomes.ForeignBodyCompletesAThrow`). It is the only exception to "`complete`
  only after a return" (`Lease.SettledOnceAfterItsBody`).
- The lease constants leave exactly 20 s of slack: two bodies of one key can run at once if and only
  if the reply to the acquire and a renewal can together be 20 s late or more
  (`LeaseTiming.MutualExclusionIffWithinSlack`).
- `src/Cancellation.ts:6-12` says a mark can land on a redelivery after a dead worker. The code
  does not do that: the count grew, so the mark names no later delivery
  (`CancelRuns.OnlyTheCancelledDeliveryIsAborted`). The model follows the code.
- `cancel` in `src/RedisDriver.ts` reads the count before the state, so a job handed out between the
  two reads is answered `aborting` with a mark that names an earlier delivery
  (`CancelRuns.MarkNamesTheRunningDeliveryIff`; `CancelRuns.StaleMarkIsWritten` is such a run).
- The comment at `src/Runtime.ts:464-467` says the delivery after a failed move runs the handler. On
  the last allowed attempt there is none: the job fails with no hook called and no burial
  (`Runtime.LastChildSettlingUnderTheMoveKillsInSilence`). `Runtime.SpentUnreportedIff` is the exact
  list of silent attempts, an unreadable envelope among them.
- A handler that throws a bare `ChildDeadError` or `ChildrenShortError` is buried at every attempt
  (`Runtime.BareRefusalBuriesTwice`); every other reported failure is buried exactly when no attempt
  follows (`Runtime.BuriedIffNoAttemptFollows`).
- `complete` of a key complete with another value is the one command on which the memory store and
  Redis part (`KeyStore.StoresAgreeUnlessOverwritten`). No trace of deliveries and forgets in which
  no lifetime runs out contains one (`LeaseOutcomes.MemoryStandsInForRedis`).
- One success per key holds with crashes, leases running out and other workers taking over, as long as
  no key is lost once a body of it succeeded; every such loss, a lease that runs out between the return
  and the landing included, can be followed by a second success (`LeaseSuccess.OneSuccessPerKey`,
  `LeaseSuccess.LostSuccessIsRepeated`). On the clock this comes to a number: with no process dying
  between a return and its sending, and no success forgotten or past its retention, one success per key
  holds if and only if reply, renewal and the landing of the `complete` can together be less than 20 s
  late (`LeaseLanding.OneSuccessIffWithinSlack`). Renewals stop before the `complete` is sent, so the
  three share one slack.
- One job per outbox row holds with a retention that sweeps only jobs of rows that are marked and that no
  relay still has to come in its batch. A sweep of any other job, an unmarked row's or a marked one that a
  second relay claimed before, can be followed by a second job for that row (`OutboxRuns.OneJobPerRow`,
  `OutboxRuns.UnspentSweepStoresTwice`, and a run in full in `OutboxRuns.SweptRowIsStoredTwice`).
- `memoryDriver` can give a generated id out twice (`MemoryDriver.ReusesAnId`), exactly when a kept job
  carries a number above the count of kept jobs (`MemoryDriver.GeneratedIdsAreNewIff`). `Cancel` brings
  that about exactly when it removes a job while another carries the number of the last one, and
  `Enqueue` exactly when the caller made such an id.
- The delivery after a replay runs the body, whatever happens in between short of another acquire of the
  key, if and only if no earlier possession of the key can still land a `complete`
  (`ReplayRuns.NextDeliveryRunsIff`). One can: a lease that ran out with its `complete` under way
  (`ReplayRuns.LateCompleteAnswersForTheReplay`).
- While a dead record is kept there is no bound on the jobs that replays of it side by side enqueue; once
  it is gone, only those that had read it still do (`ReplayRaces.JobsAtMostIff`).
- The error a failed flush throws (`src/Atomic.ts:74`) says the failing job never reached the queue. It did
  if the driver failed after storing it (`Atomic.Flush`).
- A nested atomic block that throws and is caught leaves its enqueues in the outer block, in their place
  among the others, and the outer block delivers them (`Atomic.CaughtBlockKeepsItsJobs`,
  `Atomic.RunAtomicBlock`).

## Model

| member | source | states |
|---|---|---|
| `Errors.SubstitutionKeepsTheBody` | src/Runtime.ts:388-414 | Whatever the signal was aborted with, the error a delivery fails with names the very body the thrown error named, so the lease follows it. |
| `Errors.WhatADeliveryFailsWith` | src/Runtime.ts:388-414 | For every abort and every thrown value: a cancellation always wins, a shutdown over all but what is for good, the rest is left as thrown; what was replaced is the cause. |
| `KeyStore.WhatChangesAKey` | src/RedisDriver.ts:71-129 | If and only if: which command with which token changes a free, a held and a complete key. |
| `KeyStore.WhatAKeyAnswers` | src/RedisDriver.ts:71-129 | A key through its whole life: given out once, held, complete with what was kept, free again after `release` or `forget`, with every answer on the way. |
| `KeyStore.StaleCommandsAreFenced` | src/RedisDriver.ts:83-129 | No list of commands without the holder's own `complete` or `release` takes a held key, and none without `forget` changes a complete one, with no timing assumption. |
| `KeyStore.StateReadsBack` | src/RedisDriver.ts:419-433 | Every state reads back from its stored text: a lease and a kept result never decode as one another. |
| `KeyStore.TextsAreApart` | src/RedisDriver.ts:470-517 | Two states share a stored text only if they are one state. |
| `KeyStore.StatesByTheirText` | src/RedisDriver.ts:470-500 | The texts a lease and a kept result are stored as. |
| `KeyStore.WhatIsKept` | src/Idempotency.ts:120-140 | What is kept of a result is its whole text or the marker; up to 16 Ki characters always the text, above 64 Ki never; and it reads back. |
| `KeyStore.KeptIff` | src/Idempotency.ts:128-140 | To the byte: a text whose characters take so many bytes each is kept if and only if they come to at most 65536; a result with no text keeps nothing. |
| `KeyStore.BytesOfOne` | src/Idempotency.ts:135-135 | One to four bytes for a character, by its code point. |
| `KeyStore.RedisKeys.AcquireKey` | src/RedisDriver.ts:71-81 | The script on strings refines the abstract command, reply and expiry included. |
| `KeyStore.RedisKeys.RenewKey` | src/RedisDriver.ts:83-91 | Moves the expiry exactly when the token holds the key, and no state ever. |
| `KeyStore.RedisKeys.CompleteKey` | src/RedisDriver.ts:93-103 | Refines the abstract `complete`, refused exactly on a key held by another token or already complete. |
| `KeyStore.RedisKeys.ReleaseKey` | src/RedisDriver.ts:105-113 | Refines the abstract `release`: only the holder frees the key. |
| `KeyStore.RedisKeys.ForgetKey` | src/RedisDriver.ts:115-129 | Refines the abstract `forget`, with its three answers. |
| `KeyStore.MemoryKeys.AcquireKey` | src/testing/index.ts:256-272 | The two maps changed in place refine the map of pairs, with the answer. |
| `KeyStore.MemoryKeys.CompleteKey` | src/testing/index.ts:276-285 | As above, overwriting a complete key. |
| `KeyStore.MemoryKeys.ReleaseKey` | src/testing/index.ts:287-293 | As above, only for the holder. |
| `KeyStore.MemoryKeys.ForgetKey` | src/testing/index.ts:295-305 | As above, with the three answers. |
| `KeyStore.StoresAgreeUnlessOverwritten` | src/testing/index.ts:255-306 | From agreeing states both stores answer every command alike and stay in agreement if and only if it is not a `complete` over another kept value. |
| `KeyStore.OverwriteParts` | src/testing/index.ts:276-285 | The concrete command on which they part. |
| `Lease.StepKeepsInv` | src/Idempotency.ts:157-231 | Every step of every delivery, the store and the operator keeps: a delivery that was given the key and whose body has not ended holds it, and what it sends to settle follows that body. |
| `Lease.EveryRunKeepsInv` | src/Idempotency.ts:182-231 | The same over every interleaving of any number of deliveries. |
| `Lease.WhatTheAcquireAnswers` | src/Idempotency.ts:187-197 | If and only if: a free key is given and held, a held one postpones, a complete one answers with what it keeps; the last two change nothing. |
| `Lease.FirstOnesStay` | src/Runtime.ts:66-88 | Over every step the first abort stays the reason, what ended the run first stays that, and so does what was delivered. |
| `Lease.WhatComesFirst` | src/Runtime.ts:66-88 | Which of timeout, body and abort decides the run, and what each leaves. |
| `Lease.DeliveredAsAborted` | src/Runtime.ts:388-414 | In every run: a body that returned first resolves its delivery, aborted or not; any other delivery fails as cancelled, as shut down or with what ended it, by what aborted it first. |
| `Lease.OneBodyPerKey` | src/Idempotency.ts:182-231 | In every interleaving in which no lease runs out under a body, at most one body per key is running and it holds the key. |
| `Lease.SettledOnceAfterItsBody` | src/Idempotency.ts:157-231 | In every order of timeout, cancellation, shutdown and body end, a possession is settled at most once, after its body ended, by `complete` with its result if it returned and by `release` if it threw (unless it threw another body's name). |
| `LeaseOutcomes.KeptResultWasReturned` | src/Idempotency.ts:182-231 | In every run, a complete key keeps what a body of that key returned, except after a foreign throw. |
| `LeaseOutcomes.AnsweredWithWhatWasProduced` | src/Idempotency.ts:189-195 | In every run, a delivery answered instead of run is answered with what a body of its own key produced; like a postponed one it runs and settles nothing. |
| `LeaseOutcomes.ForeignBodyCompletesAThrow` | src/Idempotency.ts:91-101 | For every error naming another body there is a run in which `complete` settles a body that threw it. |
| `LeaseOutcomes.EndedBodyIsThreeStepsFromSettled` | src/Idempotency.ts:198-231 | In every reachable state, a body that ended in a living process is at most three of its own steps from the settlement its end calls for. |
| `LeaseSuccess.OneSuccessPerKey` | src/Idempotency.ts:182-231 | Over every run with crashes, leases running out and take-overs, in which no key is lost once a body of it returned: at most one delivery of a key has a body that returned or is alive in a living process. |
| `LeaseSuccess.LostSuccessIsRepeated` | src/RedisDriver.ts:71-103 | From any state, any step that loses a key over a returned body has a continuation with a second success of that key. |
| `LeaseSuccess.LeaseRunsOutBeforeTheLanding` | src/Idempotency.ts:221-228 | For every key and result there is a run in which the lease runs out between the return and the landing of the `complete`. |
| `LeaseOutcomes.MemoryStandsInForRedis` | src/testing/index.ts:255-306 | On every trace deliveries and forgets produce with no lifetime running out, the memory store holds what Redis holds and answers every next command alike. |
| `LeaseTiming.EveryTimedRunKeepsInv` | src/Idempotency.ts:142-155 | Within the slack, over every timed run, the lease of a live body outlives the next renewal it waits for. |
| `LeaseTiming.HowLongAKeyIsGiven` | src/Idempotency.ts:3-15 | 30 s at the acquire, again with each renewal by the holder, 24 hours once complete. |
| `LeaseTiming.TwoBodiesOutsideTheSlack` | src/Idempotency.ts:3-5 | Outside the slack there is a timed run with two bodies of one key alive. |
| `LeaseTiming.MutualExclusionIffWithinSlack` | src/Idempotency.ts:3-5 | With no assumption on expiry but the clock: one body per key in every timed run if and only if reply and renewal lateness sum to less than 20 s. |
| `LeaseTiming.PostponedAtLeast` | src/Idempotency.ts:7-13 | n postponements, n at least 4, take at least 1500 + 1000 (n - 4) ms from any starting count of 1 or more, and exactly that from 1. |
| `LeaseLanding.EveryPacedRunKeepsInv` | src/Idempotency.ts:198-231 | Within the slack, over every timed run, the lease of a body that returned outlives the landing of its `complete`, and no key is lost over a success. |
| `LeaseLanding.TwoSuccessesOutsideTheSlack` | src/Idempotency.ts:198-231 | Outside it there is a timed run with a second success of one key. |
| `LeaseLanding.OneSuccessIffWithinSlack` | src/Idempotency.ts:198-231 | With no death between a return and its sending, no success forgotten and none past its retention: one success per key in every timed run if and only if reply, renewal and landing lateness sum to less than 20 s. |
| `JobId.JobIdReadsBackIff` | src/JobId.ts:48-58 | An id reads back as queue and stored id if and only if the queue is named and colon-free and the stored id not empty. |
| `JobId.JobIdComposesBack` | src/JobId.ts:48-58 | Whatever is accepted composes back to the text that was read. |
| `JobId.JobIdsAreApart` | src/JobId.ts:3-5 | Jobs on colon-free queues never share an id. |
| `JobId.DeadJobIdReadsBack` | src/Client.ts:241-252 | The id of a dead record reads back as its live queue and record, and never as a live job. |
| `JobId.LiveQueueNameIff` | src/Dead.ts:208-224 | A queue is read as a dead one, and as whose, if and only if its name is a live queue's with the suffix. |
| `JobId.IdsByTheirText` | src/JobId.ts:3-26 | The texts of ids, keys and dead queues. |
| `JobId.LiveOrDead` | src/Client.ts:264-272 | A job id is read as exactly one of a live job and a dead record. |
| `JobId.ChildSlotReadsBackIff` | src/JobId.ts:24-37 | A slot reads back from a child id if and only if it holds no marker. |
| `JobId.ChildKeyReadsBack` | src/RedisDriver.ts:524-528 | A job key reads back as queue and id under every prefix, colons included. |
| `JobId.SlotReadsBackFromJobKey` | src/RedisDriver.ts:551-558 | A slot a definition may declare reads back from the whole job key. |
| `JobId.DecimalReadsBack` | src/RedisDriver.ts:590-600 | The text of a count reads back as the count. |
| `JobId.DecimalsAreApart` | src/RedisDriver.ts:131-145 | Comparing counts as text is comparing counts. |
| `Flow.ComposedIsCounted` | src/Flow.ts:366-398 | Every tree that is built has, at every depth, counts equal to the children carrying each slot, slots its definition declares, nothing unique; and each count is what the caller gave. |
| `Flow.ComposedCarries` | src/Flow.ts:305-398 | At every depth each job carries, under its definition's version, what the caller passed at its place: the root its payload, the i-th child of a many slot the i-th item or its `data`, any other child the value or its `data`. |
| `Flow.AcceptedIffFits` | src/Flow.ts:254-398 | A tree is built if and only if every payload passes, nothing is unique and every slot at every depth is filled in its arity. |
| `Flow.RefusedInputSaysWhy` | src/Flow.ts:254-290 | Which refusal of an input comes first, if and only if. |
| `Flow.RefusedRootSaysWhy` | src/Flow.ts:373-380 | A refused payload and a unique job stop the root itself. |
| `Flow.CountsSumToTheChildren` | src/Flow.ts:366-398 | At every node the slot counts sum to the number of children. |
| `FlowRead.ReplyReadsBack` | src/RedisDriver.ts:551-571 | The script's reply, under every prefix, reads back as each child's slot with its value, or its reason and the id a retry takes. |
| `FlowRead.ReplyReflectsTheChildren` | src/RedisDriver.ts:161-167 | Whatever order the hashes come in, the reply is a true read of the composed tree's children. |
| `FlowRead.OrderDoesNotMatter` | src/Flow.ts:113-115 | Reads with one multiset of results give each slot one multiset of values. |
| `FlowRead.ArrivedIffAll` | src/Flow.ts:125-157 | The pigeonhole: as many results as children in a slot if and only if each of them has one, and never more. |
| `FlowRead.HandlerReachedIffEveryChildHasAResult` | src/Flow.ts:212-240 | For every state of the children, a stored parent gets past the refusals if and only if every child has a result. |
| `FlowRead.RefusalNamesTheWorstChild` | src/Flow.ts:212-240 | Which refusal it is, if and only if: in flight before failed before gone; a failed one carries what the others left. |
| `FlowRead.HandlerReadsEveryValue` | src/Flow.ts:168-185 | A handler is given, slot by slot, what the slot's schema makes of each child's value, each once; one value for a single slot, a list for a many slot. |
| `Definition.ValidatedIff` | src/Result.ts:30-41 | A result is what its schema gives back, and with no schema as it was left. |
| `FlowRun.HandlerRunsOverASettledTree` | src/Flow.ts:212-240 | Over every run of a composed flow with completions, failures, retries and removals: a job that got past the refusals, as every job whose handler ran did, had a result from every job below it, at every depth. |
| `FlowRun.DeliveryBegins` | src/Flow.ts:212-240 | And it does get past them when every child holds a result its slot's schema accepts. |
| `FlowRun.OneChildShort` | src/Flow.ts:212-240 | With every other child done, a failed one buries the parent as dead, a removed one as short, a retried one makes it wait. |
| `FlowRun.ReturnsAfterARetry` | src/RedisDriver.ts:760-776 | A job that was retried can still leave its result for its parent. |
| `Migration.MigrateEnvelope` | src/Migration.ts:39-62 | The loop calls the steps and ends as `Migrate` says, and calls none for an envelope ahead of the process. |
| `Migration.OneVersionUp` | src/Migration.ts:27-60 | One version up, by the definition's own map: which step is called, and its value, its throw or its absence is the result. |
| `Migration.MigratedIffChained` | src/Migration.ts:39-62 | Over any number of whole versions: it succeeds with a value if and only if the definition's own steps lead from the payload to it. |
| `Migration.NoStepToTake` | src/Migration.ts:27-52 | A payload that is up to date calls nothing, and a version that is no whole number has no step. |
| `Migration.MigrationComposes` | src/Migration.ts:39-62 | Migrating to a version on the way and on from there is migrating all the way: same calls, same end. |
| `Migration.StepsRunOnceInOrder` | src/Migration.ts:27-62 | Steps are called once each in increasing order; a failure is at the first step missing or throwing. |
| `Outbox.DerivedIdsAreApart` | src/Outbox.ts:100-114 | Two rows never derive one id, and a derived id holds no colon and is no number. |
| `Outbox.PreparedIff` | src/Outbox.ts:170-243 | For every row, known to the client or not, if and only if: which rows reach the driver, with which request, and which are blamed on the deploy. |
| `Outbox.WhyARowIsLeft` | src/Outbox.ts:221-251 | If and only if: the driver is blamed for a row that can be delivered and nothing else, the deploy for a newer payload, and the row for the rest. |
| `Outbox.WhatARowLeaves` | src/Outbox.ts:221-251 | The queue after one row, told by its definition, its id and the driver's answer. |
| `Outbox.Deliver` | src/Outbox.ts:221-251 | The queue after one row and why it is left behind; `driver_failed` only if the enqueue was attempted. |
| `Outbox.Driver.Enqueue` | src/testing/index.ts:334-356 | A request under a kept id creates and overwrites nothing. |
| `Outbox.RunRelayCycle` | src/Outbox.ts:309-329 | The ids marked, the rows reported and the queue after a cycle, for every batch and every driver. |
| `Outbox.CycleSplitsTheBatch` | src/Outbox.ts:309-329 | Every claimed row is marked or reported, once. |
| `Outbox.RowInItsPlace` | src/Outbox.ts:309-329 | Wherever a row stands it is marked, or reported with its own reason, between those claimed before and after it. |
| `Outbox.MarkedRowsHaveJobs` | src/Outbox.ts:221-251 | Every marked row has its job in the queue, nothing queued is lost, and the driver is blamed exactly for what it was asked and did not do. |
| `Outbox.RelayLoop.Tick` | src/Outbox.ts:342-361 | Begins a cycle exactly when none is under way and the loop is open; cycles never overlap. |
| `Outbox.RelayLoop.CycleEnds` | src/Outbox.ts:347-356 | Ends the one cycle under way. |
| `Outbox.RelayLoop.Close` | src/Outbox.ts:363-369 | No cycle is under way after it and none begins. |
| `OutboxRuns.OneJobPerRow` | src/Outbox.ts:309-329 | Over all runs of relays that die between any two steps, with sweeps only of jobs whose row is marked and ahead in no batch: at most one job was ever stored per row, and every marked row's job was stored. |
| `OutboxRuns.MarkedRowsStayQueued` | src/Outbox.ts:309-329 | With no sweep, in every run, a marked row has its own job, with its own envelope, in the queue. |
| `OutboxRuns.AloneItIsACycle` | src/Outbox.ts:309-329 | A relay left alone leaves the queue a cycle leaves and marks exactly the rows a cycle gives back, for every batch and every driver. |
| `OutboxRuns.DeathLeavesTheRows` | src/Outbox.ts:309-329 | A relay that dies leaves rows, marks and jobs, and its rows to be claimed again. |
| `OutboxRuns.UnspentSweepStoresTwice` | src/Outbox.ts:221-251 | From every reachable state, a sweep of any other job has a continuation that stores the row a second time. |
| `OutboxRuns.UnspentJobIsReached` | src/Outbox.ts:309-329 | Every row that can be delivered has a run to a state with such a job. |
| `OutboxRuns.SweptRowIsStoredTwice` | src/Outbox.ts:309-329 | A definition, a row and a run that stores the row twice. |
| `Atomic.HoldOrDeliver` | src/Atomic.ts:44-66 | What is held, delivered or refused, for every answer of the driver, with everything else unchanged. |
| `Atomic.Flush` | src/Atomic.ts:68-79 | Delivers all in order, or the jobs before the one that failed, and that one exactly when the driver failed after storing it. |
| `Atomic.RunBody` | src/Atomic.ts:91-103 | A program inside an open scope delivers nothing and leaves the scope holding what it collected. |
| `Atomic.ResolvesIff` | src/Atomic.ts:91-103 | A program's block resolves if and only if no statement throws out of it. |
| `Atomic.ThrowEndsTheBlock` | src/Atomic.ts:99-103 | Wherever a throw is reached, the block holds what came before and throws. |
| `Atomic.EnqueueIsKeptInItsPlace` | src/Atomic.ts:57-65 | Wherever an enqueue is reached its job is kept in its place, and one the outbox cannot take throws instead. |
| `Atomic.NestedBlockJoins` | src/Atomic.ts:95-97 | A nested block is its statements in the outer one, throws included. |
| `Atomic.CaughtBlockKeepsItsJobs` | src/Atomic.ts:95-97 | In every program, a caught nested block, thrown or not, leaves its enqueues between those before and those after it. |
| `Atomic.RunAtomicBlock` | src/Atomic.ts:91-119 | For every program of enqueues, nesting, throws and catches: it throws, delivering and writing nothing, if and only if a statement throws out of it; all, a flushed prefix or one write otherwise. |
| `Atomic.BlocksDoNotInterfere` | src/Atomic.ts:25-66 | In every interleaving a block holds, delivers and writes what it does alone. |
| `Atomic.EveryBlockAllOrNothing` | src/Atomic.ts:91-119 | In every interleaving an open or thrown block, or one whose write failed, delivered and wrote nothing; a settled one all it kept in order; a broken one the prefix. |
| `Atomic.FlushSettles` | src/Atomic.ts:68-79 | From any point of a flush, with a driver that answers, as many steps as jobs are left settle the block with everything it kept delivered in order. |
| `Atomic.OutsideGoesThrough` | src/Atomic.ts:47-51 | Outside any block an enqueue reaches the queue at once. |
| `Atomic.HowABlockEnds` | src/Atomic.ts:101-118 | What a throw, a write, a failed write and an empty block leave. |
| `Atomic.EndedBlockKeepsNothingMore` | src/Atomic.ts:53-55 | A block that ended accepts nothing more over any later actions. |
| `Atomic.ProgramAmongOthers` | src/Atomic.ts:91-119 | A program's block among any others keeps what the program collected and delivers a prefix of it, all once settled, none if it threw or its write failed. |
| `Runtime.BuriedIffFinalOrBare` | src/Dead.ts:231-284 | For every error: buried if and only if final or a bare child refusal. |
| `Runtime.BuriedFor` | src/Dead.ts:231-284 | For every error and attempt, if and only if: which of the six reasons. |
| `Runtime.BuriedIffNoAttemptFollows` | src/Runtime.ts:426-495 | Every reported failure fails its attempt, and is buried exactly when no attempt follows if and only if it is no bare child refusal with attempts left, which only a handler throws. |
| `Runtime.SpentUnreportedIff` | src/Runtime.ts:456-495 | Held key, shutdown and pending children are never reported; if and only if: when an attempt is spent unreported. |
| `Runtime.DeathsOfALife` | src/Runtime.ts:426-455 | Over every life between two retries, with any handlers: `onDead` fires once for each bare child refusal with attempts left and once more if the job failed with its last attempt reported; attempts made are those reported, those silent and the success. |
| `Runtime.OneDeathPerLife` | src/Runtime.ts:426-455 | With no handler throwing a bare child refusal, `onDead` fires at most once in a life, and exactly for a failure that was reported. |
| `DeliveryFacts.UnreadableEnvelope` | src/Runtime.ts:469-479 | Ends the job with nobody told. |
| `DeliveryFacts.NothingToRun` | src/Runtime.ts:325-341 | Unknown name, newer version, failed migration, refused payload: each ends the job at once, told of and buried for its reason. |
| `DeliveryFacts.ChildrenStopIt` | src/Runtime.ts:343-359 | Dead, gone and refused children end the parent at once, each for its reason; a pending one costs nothing if the job is put back and an unheard attempt if not. |
| `DeliveryFacts.MetAtTheKey` | src/Runtime.ts:418-419 | A held key leaves the job as it was, a kept one completes it, a failing store fails the attempt. |
| `DeliveryFacts.HandlerReturned` | src/Runtime.ts:361-423 | A return completes the job, aborted or not, unless the key could not be completed. |
| `DeliveryFacts.HandlerThrew` | src/Runtime.ts:426-455 | A throw spends the attempt, and the job with it if it is for good or the last. |
| `DeliveryFacts.CancelledWhileItRan` | src/Runtime.ts:388-401 | A cancelled run that throws anything ends the job as cancelled. |
| `DeliveryFacts.ShutDownWhileItRan` | src/Runtime.ts:403-413 | A run that is shut down spends nothing, unless what it threw is for good or the job cannot be put back. |
| `DeliveryFacts.ReleaseFailed` | src/Idempotency.ts:205-219 | A key that could not be released takes the place of what was thrown. |
| `DeliveryFacts.OverAndAgain` | src/RedisDriver.ts:760-776 | A job that is over takes no delivery; only a failed one is retried, from nothing. |
| `Runtime.LastChildSettlingUnderTheMoveKillsInSilence` | src/RedisDriver.ts:652-669 | A failed job that no hook and no burial tells of. |
| `Runtime.BareRefusalBuriesTwice` | src/Dead.ts:256-284 | Two burials in one life, for a handler that throws a bare child refusal. |
| `Cancellation.LeftIff` | src/testing/index.ts:312-322 | A mark goes if and only if its own delivery is among those asked for. |
| `Cancellation.TakenIff` | src/testing/index.ts:420-422 | A delivery is taken if and only if a mark names it, once however often it is listed. |
| `Cancellation.MarkKeysAreApart` | src/RedisDriver.ts:580-582 | Marks of two jobs never share a key. |
| `Cancellation.MarkKeyByItsText` | src/RedisDriver.ts:580-582 | The text of a mark's key. |
| `Cancellation.RedisMarks.RequestCancel` | src/RedisDriver.ts:590-600 | Exactly one mark changes. |
| `Cancellation.RedisMarks.TakeCancelledScript` | src/RedisDriver.ts:131-145 | The one-based positions the scan replies name the deliveries taken, and the strings left are the marks left, duplicates included. |
| `Cancellation.RedisMarks.TakeCancelled` | src/RedisDriver.ts:809-834 | The positions mapped back give the same deliveries and the same marks as the memory filter. |
| `Cancellation.MemoryMarks.RequestCancel` | src/testing/index.ts:308-310 | Exactly one entry changes, and on a colon-free queue exactly one mark. |
| `Cancellation.MemoryMarks.TakeCancellation` | src/testing/index.ts:312-322 | Hits exactly for the delivery the mark names, and drops that mark alone. |
| `Cancellation.MemoryMarks.TakeCancelled` | src/testing/index.ts:420-422 | The filter takes and leaves what the Redis scan does, from the same marks. |
| `Cancellation.LiveByQueue` | src/Runtime.ts:291-302 | Every queue with a running delivery, each with its deliveries in order, and no other. |
| `Cancellation.SweepCancellations` | src/Runtime.ts:497-505 | A sweep aborts exactly the running deliveries a mark names and leaves exactly the other marks. |
| `CancelRuns.OnlyTheCancelledDeliveryIsAborted` | src/Cancellation.ts:25-37 | Over every run, an aborted delivery is one a cancellation named, and the only delivery it names. |
| `CancelRuns.SweepAbortsIff` | src/Runtime.ts:497-505 | A sweep aborts a delivery if and only if it runs and a mark names it, and takes exactly those marks. |
| `CancelRuns.MarkNamesTheRunningDeliveryIff` | src/RedisDriver.ts:778-795 | The mark names the running delivery if and only if the job was not handed out between the two reads. |
| `CancelRuns.NothingToCancel` | src/RedisDriver.ts:778-795 | A job that stopped running between the two reads is not marked, and a mark that expired aborts nothing. |
| `CancelRuns.StaleMarkIsWritten` | src/RedisDriver.ts:778-795 | For every job, a run in which it is active under a mark that names no delivery of it. |
| `MemoryDriver.MemoryDriver.JobAt` | src/testing/index.ts:195-197 | The first job recorded under a name. |
| `MemoryDriver.MemoryDriver.FirstToRun` | src/testing/index.ts:199-201 | The first pending job on a running queue, none if and only if all are held back. |
| `MemoryDriver.MemoryDriver.Pause` | src/testing/index.ts:424-426 | No job of the queue runs while it is paused, and no other is touched. |
| `MemoryDriver.MemoryDriver.Resume` | src/testing/index.ts:428-430 | Every pending job of the queue may run again. |
| `MemoryDriver.MemoryDriver.Enqueue` | src/testing/index.ts:327-356 | An unsupported option changes nothing; an id the driver keeps answers with its job; otherwise one new job last in both lists, whose stored envelope reads back as the one given; `pending` stays exactly the waiting jobs, no repeats; safe ids stay apart, and safe unless the caller made a number yet to come. |
| `MemoryDriver.MemoryDriver.TakeNext` | src/testing/index.ts:203-226 | Which job leaves the line, or which error says why none does, with the lists in step. |
| `MemoryDriver.MemoryDriver.Settle` | src/testing/index.ts:235-252 | The job's end; a held lease puts it at the head and spends no attempt; lists in step. |
| `MemoryDriver.MemoryDriver.Retry` | src/testing/index.ts:378-395 | A failed job and only that goes to the end of the line, its count of deliveries kept. |
| `MemoryDriver.MemoryDriver.Cancel` | src/testing/index.ts:397-418 | The answer by state; exactly a waiting job leaves both lists and exactly an active one is marked; safe ids stop being so exactly when a job that stays carries the number given out next. |
| `MemoryDriver.MemoryDriver.RunNext` | src/testing/index.ts:203-253 | However the handler ends and whatever it enqueues, the first runnable job ends as it did or goes back to the head, what was enqueued stands last, and every other job keeps its state. |
| `MemoryDriver.MemoryDriver.Drain` | src/testing/index.ts:501-510 | Terminates for all handlers that enqueue finitely much, however they end: jobs of running queues run in the order they came to stand in line, those enqueued on the way included, up to the first that throws, meets a held lease or has no consumer; with none, all of them, with their count, keeping the others in order. |
| `MemoryDriver.GeneratedIdsAreNewIff` | src/testing/index.ts:343-343 | Names that are apart stay apart under every further list of generated enqueues if and only if no kept job carries a number above the count of kept jobs. |
| `MemoryDriver.OutboxIdsAreSafe` | src/Outbox.ts:100-114 | An id derived from a row is never such a number. |
| `MemoryDriver.ReusesAnId` | src/testing/index.ts:414-415 | After a cancelled job was removed, two jobs on one queue share a generated id. |
| `Dead.ReadSlots` | src/Envelope.ts:47-70 | The loop accepts exactly the records of whole numbers, whole. |
| `Dead.ReadChildren` | src/Dead.ts:136-159 | The loop accepts exactly the lists whose items all name a slot, whole, in order, with every field they carry. |
| `Dead.EnvelopeSurvives` | src/Envelope.ts:72-109 | Every envelope comes back whole from its JSON, slot counts included. |
| `Dead.EnvelopeByItsText` | src/Envelope.ts:3-109 | The record an envelope is read from, origin by origin. |
| `Dead.ErrorSurvives` | src/Dead.ts:88-134 | Every serialized error comes back with its cause. |
| `Dead.BurialSurvives` | src/Dead.ts:170-206 | Every burial comes back whole from its JSON. |
| `Dead.ReasonsByTheirText` | src/Dead.ts:28-35 | The texts of the six reasons. |
| `Dead.AcceptedIsABurial` | src/Dead.ts:170-206 | Any accepted record has children exactly for `child_dead`, and reads the same when written again. |
| `Dead.AcceptedIff` | src/Dead.ts:88-206 | Which stored values are read as an envelope, as an error and as a record, if and only if, by their fields. |
| `Dead.ReportedBurialSurvives` | src/Runtime.ts:432-451 | For every error that buries, at every attempt, the record `report` builds survives its JSON, and has children exactly when the error is or wraps a dead child. |
| `Dead.WhatIsReported` | src/Runtime.ts:432-451 | The record is the delivery's own: its id reads back as queue and job, its envelope and error are the delivery's, and a dead child's lists slot and value of every result. |
| `Replay.Client.Replay` | src/Client.ts:377-433 | Wherever a store fails, before or after it acted, the record is kept or its job enqueued, and the keys are as they were or the record's own key was forgotten; a refusal changes nothing; success if and only if replayable and not held; then the record is gone, the job enqueued and the key free. |
| `Replay.ReplayedWhere` | src/Client.ts:399-430 | By the definitions alone: which queue, which key, and exactly which records. |
| `Replay.RefusedRecordSaysWhy` | src/Client.ts:393-416 | Which refusal, if and only if. |
| `ReplayRuns.NextDeliveryRunsIff` | src/Idempotency.ts:157-231 | In every state with the key free: the next delivery of it is given the key over every run without another acquire of it, if and only if no possession of it can still land a `complete` (one sent and not landed, or a living one whose body returned or threw the name of another body that may return). |
| `ReplayRuns.LateCompleteAnswersForTheReplay` | src/RedisDriver.ts:93-103 | For every key and result there is a reachable state with the key free and a `complete` under way, which lands and answers for the next delivery. |
| `ReplayRaces.JobsAtMostIff` | src/Client.ts:377-433 | Replays of one record side by side enqueue at most n jobs in every run if and only if the record is gone and those enqueued with those about to be are at most n. |
| `ReplayRaces.OneJobPerReplay` | src/Client.ts:424-430 | In every run each replay enqueues once at most. |
| `ReplayRaces.FailedReplayIsOver` | src/Client.ts:424-430 | A replay that failed enqueues nothing more and drops nothing. |

## Left out

- BullMQ, ioredis and Redis: kept only as rules (a child is in exactly one of in flight, processed, failed or gone; a failed attempt is final if it is unrecoverable or the last; `add` under a kept id gives the kept job back; a script is one step).
- Payload and result schemas, uniqueness and idempotency-key functions: arbitrary functions of the value; delivery policies only as "unique or not".
- JSON text of a result: an opaque text between the braces; `JSON.stringify` and `JSON.parse` on values are the projection `Dead.Project`, and numbers are reals (no NaN, no rounding).
- Schedules and `reconcileSchedules`, the dashboard, connection checks, boot assertions, consumer opening: wiring with one branch each.
- Error texts, console output, hook bodies and hook failures: only which hook fires and when.
- Stalled-job recovery, and retention except where a property is about it: a crash and a sweep are actions, who causes them is not modelled.
- The `jubs:idem:` prefix: keys are named by what follows it, since every script is called with it.
- Definitions that change between enqueue and dispatch: a node of a flow carries the definition it was composed of, and `OutboxRuns` holds the definitions fixed.
- Slot names that are properties of every object (`constructor` and the like): a field an object does not hold reads as undefined.
- BullMQ's own control errors thrown by a handler: they are foreign to the classification in `Runtime`.
- `cancel` in Redis of a job that is not active (removal with its children, a worker's lock): one branch each around BullMQ.
- Runtime.BuriedIffNoAttemptFollows: foreign stores and schemas are taken to fail with ordinary errors, never with the library's internal child refusals.
- MemoryDriver.MemoryDriver.Drain: handlers that keep enqueueing for ever are left out, since a drain over them never ends.
- Replay.Client.Replay: one replay; others of the same record between its steps are in `ReplayRaces`, deliveries of its key in `ReplayRuns`.
