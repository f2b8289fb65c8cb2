# breakdown-rs: verified model

A Dafny model of the parts of breakdown-rs where correctness is hardest to see from the code, with
proofs over every input and every run. `dafny verify dfyconfig.toml` checks the whole project.

## What is modelled

**Projections onto Postgres** (`ProjectionStore`, `ProjectionSteps`, `ProjectionWorker` and the
proofs in `ProjectionMarks`, `ProjectionContent`, `ProjectionLoss`, `ProjectionExposure`,
`ProjectionRuns`, `ProjectionTables`, `ProjectionOrder`, `ProjectionProgress`, `ProjectionFindings`). Workers keep a transaction open over several events, each
inside a savepoint, retry, dead-letter poison events, and publish effects and checkpoints together.
`ProjectionSteps` gives each operation as a function of the state and of the outcomes of its I/O;
`ProjectionWorker` is the imperative code, proved equal to those functions; a run is any sequence of
deliveries, redeliveries, timer flushes and crashes over any number of workers and partitions.
Exactly-once projection is what the code is for. Half of it holds in every run, whatever fails: each
event at most once and in order, never applied and dead-lettered both, nothing above the checkpoint. So a
lost event is the only way in which the tables can be inexact, and two concrete runs do lose one. The
exact condition: a call loses when it drops its open batch and goes on, or forgets a rejected COMMIT. That
leaves a hole, an event handled by the worker that is in neither the tables nor the open transaction. Over
whole runs, a worker has a hole if and only if one of its steps has lost since the epoch began; the end of
the epoch heals it. In every state of every run the tables are exact if and only if no worker has committed
past such a loss, and an event lost that way stays lost forever. All of this is stated on the state and on
the outcomes of the I/O. The watermark, monotonicity and exposure results hold in every run too. Progress
is stated for runs without I/O faults: events are applied or, exactly if their handler ends in a permanent
error, dead-lettered; flushes that fall due commit; and only crashes end an epoch.

**Optimistic entity actors** (`Causation`, `EntityLog`, `EntityRuns`, `EntityActor`). Any number of
actors decide on cached states, append with exact expected versions, and catch up page by page. Every
log is serial, and a named caused command enters a log at most once.

**Photo-key provisioning** (`PhotoKey`). A compare-and-set agreement protocol between any number of
processes whose requests may fail or lose their answers.

**Nano-currency costs** (`Cost`). Half-up rounding, the per-request energy cap, and the total a user
pays.

**Smaller pieces.** Fractional sort keys (`SortKey`), acknowledgement batches (`Acknowledgement`),
stream identifiers (`StreamIdentity`), the AI configuration aggregate (`AiConfiguration`), outfit
continuity (`Continuity`).

The outcome of every request to a database, the event store or Vault is a parameter of the step that
makes it, so a statement about all parameters is a statement about all failures. Functions supplied by
the application (event handlers, `Command::handle`, text normalisation, Transit decryption, the model
catalog) are parameters too.

## Where the code departs from its documentation

- The comment at `postgres.rs:716` says that the standalone dead-letter branch is taken when the
  failing event began the batch. A failing event that began a batch leaves its transaction open, so the
  branch is taken only when an attempt dropped the transaction, and any earlier events in it are lost
  (`HandleEventSoundIff`; `SavepointFailureLosesEvent` shows the same loss on the success path).
- A rejected COMMIT has consumed the transaction, so the retry of the flush finds nothing to do and
  reports success (`RejectedCommitLosesEvent`).
- An undecodable message is dead-lettered beside the worker. Unless the committed checkpoint is right
  in front of it the tables stop being exact, and the worker's next flush may move the checkpoint back
  (`UndecodableExactIff`, `SyncedFlushRegresses`).
- The causation index records only events that carry a command name; causes without one are never
  skipped (`NamelessCausesRepeat`). The command service always sets the name.
- `LexicalSortKey::midpoint` promises a key strictly between its bounds and `NoRoom` otherwise. It
  returns the upper bound when that is the lower bound followed by `!`, and `TooLong` when the lower
  bound is full length, even where a key would fit; exactly when is `RefusedRoomIff`
  (`MidpointBetween`, `MidpointFails`, `RefusedThoughRoom`).
- The token example at `cost.rs:48-49` is off by a factor of 1000; the formula is followed.
- `StreamId::push_type` looks for `:` in the whole string, so a colon in the identifier makes it glue
  the type to the name (`PushTypeIff`).
- The create handler of the AI configuration does not look at the state. Its adapter appends with an
  empty expected version, which is what makes versions count events (`CountIff`, `SecondCreateResets`).
- `event_handler.rs:395-399` says that a cursor is acknowledged only after the handler completed. For the
  Postgres processor `process_event` only puts the event into the mailbox and reports success
  (`postgres.rs:188-194`), so cursors are acknowledged before the worker handles their events. The
  acknowledgement results are about what `process_event` reports; projections resume from their
  checkpoints, not from acknowledgements.
- When the supervisor restarts a subscription on the living processor
  (`crates/infra/src/projectors/mod.rs:219-243`), the start point is still the map read at boot, not the
  current checkpoints. It repeats handled events and skips none (`ResubscribeRepeats`).

## Model

| member | source | states |
|---|---|---|
| `ProjectionWorker.Worker.constructor` | backend/.patches/kameo_es/src/event_handler/postgres.rs:63-120 | a spawned worker starts from the checkpoint map read at boot, with nothing open |
| `ProjectionWorker.Worker.AttemptEvent` | backend/.patches/kameo_es/src/event_handler/postgres.rs:953-1059 | one attempt inside a savepoint: the transaction afterwards is kept, extended or dropped exactly as specified for every I/O outcome |
| `ProjectionWorker.Worker.ProcessEvent` | backend/.patches/kameo_es/src/event_handler/postgres.rs:536-546 | the retry loop computes the verdict and transaction of up to six attempts |
| `ProjectionWorker.Worker.FlushCheckpoint` | backend/.patches/kameo_es/src/event_handler/postgres.rs:809-926 | the loop over the handled map and the COMMIT compute the specified tables and worker |
| `ProjectionWorker.Worker.Flush` | backend/.patches/kameo_es/src/event_handler/postgres.rs:1061-1084 | the flush retry loop, including the retry that finds no transaction |
| `ProjectionWorker.Worker.DeadLetterEvent` | backend/.patches/kameo_es/src/event_handler/postgres.rs:658-807 | both branches of the dead letter: in the retained transaction, or standalone |
| `ProjectionWorker.Worker.SettleEvent` | backend/.patches/kameo_es/src/event_handler/postgres.rs:582-641 | recording an event, turning live, and the flush at the active interval |
| `ProjectionWorker.Worker.Handle` | backend/.patches/kameo_es/src/event_handler/postgres.rs:502-644 | a whole call of the worker equals the step function the runs are made of |
| `ProjectionMarks.CommitCatchesUp` | backend/.patches/kameo_es/src/event_handler/postgres.rs:824-902 | a flush whose writes succeed commits the handled watermark of every owned partition and no other row, for any iteration order |
| `ProjectionMarks.HandleEventMarks` | backend/.patches/kameo_es/src/event_handler/postgres.rs:502-644 | whatever fails: flushed <= committed <= handled stays true on owned partitions, foreign rows are untouched, checkpoints do not move back |
| `ProjectionContent.FlushAllSound` | backend/.patches/kameo_es/src/event_handler/postgres.rs:809-926 | a flush keeps tables and worker exact unless it forgets its batch |
| `ProjectionContent.StandaloneProjected` | backend/.patches/kameo_es/src/event_handler/postgres.rs:716-807 | dead-lettering the first uncovered event on its own keeps every partition exact |
| `ProjectionLoss.ConcludeEnds` | backend/.patches/kameo_es/src/event_handler/postgres.rs:582-641 | how a call ends, read off its I/O script: when its tables change, and when it reports success or publishes past its batch |
| `ProjectionLoss.HandleEventSoundIff` | backend/.patches/kameo_es/src/event_handler/postgres.rs:502-644 | one call from exact tables and a covered worker: both stay so if and only if, by the state and the I/O script, it neither drops its batch and goes on nor forgets a rejected COMMIT |
| `ProjectionLoss.HolePublishes` | backend/.patches/kameo_es/src/event_handler/postgres.rs:953-1059 | a call of a worker with a hole keeps the tables exact if and only if no COMMIT takes effect past it |
| `ProjectionExposure.HandleEventExposed` | backend/.patches/kameo_es/src/event_handler/postgres.rs:525-534 | after every handled event fewer events are uncommitted than the active interval, and a live worker is caught up with every sampled partition |
| `ProjectionExposure.HandleEventGrows` | backend/.patches/kameo_es/src/event_handler/postgres.rs:423-453 | a call adds effects and dead letters only for partitions its worker owns |
| `ProjectionRuns.DeliverTracked` | backend/.patches/kameo_es/src/event_handler/postgres.rs:423-453 | a delivery writes checkpoint rows only of partitions routed to its worker, and keeps every worker's watermarks |
| `ProjectionRuns.TimerTracked` | backend/.patches/kameo_es/src/event_handler/postgres.rs:1112-1142 | the same for a timer flush |
| `ProjectionRuns.StepTracked` | backend/.patches/kameo_es/src/event_handler/postgres.rs:423-453 | every step of the whole system keeps watermarks, exposure and restart point, and moves no checkpoint back |
| `ProjectionRuns.StepSoundIff` | backend/.patches/kameo_es/src/event_handler/postgres.rs:502-644 | one step keeps the tables exact and every worker's cache in line with them if and only if it does not lose |
| `ProjectionRuns.CheckpointsMonotone` | backend/.patches/kameo_es/src/event_handler/postgres.rs:824-902 | committed checkpoints never decrease, in any run |
| `ProjectionTables.TablesExactIff` | backend/.patches/kameo_es/src/event_handler/postgres.rs:502-644 | in every state of every run the tables are exact if and only if no step so far committed past a hole |
| `ProjectionTables.ExactBySteps` | backend/.patches/kameo_es/src/event_handler/postgres.rs:502-644 | the same condition by the steps alone: no worker committed past a loss of its own in the same epoch |
| `ProjectionOrder.AtMostOnce` | backend/.patches/kameo_es/src/event_handler/postgres.rs:502-644 | in every state of every run, lossy ones included: effects in strictly increasing order, no event both applied and dead-lettered, each dead letter seen once, nothing above the checkpoint |
| `ProjectionOrder.OnlyLoss` | backend/.patches/kameo_es/src/event_handler/postgres.rs:658-926 | in every state of every run the tables are exact if and only if no event is lost |
| `ProjectionTables.ExactlyOnce` | backend/.patches/kameo_es/src/event_handler/postgres.rs:502-644 | what exact tables mean: each event below the checkpoint is applied or dead-lettered, never both, once and in order, and none above it is |
| `ProjectionTables.StepTablesIff` | backend/.patches/kameo_es/src/event_handler/postgres.rs:502-644 | one step keeps the tables exact if and only if it does not commit past a hole |
| `ProjectionTables.StepHoledIff` | backend/.patches/kameo_es/src/event_handler/postgres.rs:1013-1043 | a hole is opened by a losing step of its worker, stays while the epoch lasts and is healed by its end |
| `ProjectionTables.RunHoledIff` | backend/.patches/kameo_es/src/event_handler/postgres.rs:1013-1043 | over whole runs, a worker has a hole if and only if one of its steps has lost and the epoch has not ended since |
| `ProjectionTables.GoneForever` | backend/.patches/kameo_es/src/event_handler/postgres.rs:512-523 | a lost event that no open transaction holds is lost in every later state: no redelivery, retry or restart brings it back |
| `ProjectionTables.RestartResumes` | backend/.patches/kameo_es/src/event_handler/postgres.rs:275-285 | whenever an epoch ends, by a crash or a propagated error, the next one resumes each partition at the first event that is neither applied nor dead-lettered |
| `ProjectionTables.ResubscribeRepeats` | backend/.patches/kameo_es/src/event_handler/postgres.rs:275-285 | a subscription restarted on the living processor skips nothing and repeats handled events only |
| `ProjectionRuns.BoundedExposure` | backend/.patches/kameo_es/src/event_handler/postgres.rs:582-641 | in every reachable state the uncommitted events of a worker are fewer than its active interval |
| `ProjectionProgress.VerdictFromHandler` | backend/.patches/kameo_es/src/event_handler/postgres.rs:1013-1045 | whatever else fails, only a permanent error on the last attempt makes an event poison, and only a success makes it handled |
| `ProjectionProgress.VerdictIff` | backend/.patches/kameo_es/src/event_handler/postgres.rs:953-1059 | with working savepoints the handler's reports decide the verdict, both ways, and the batch is kept |
| `ProjectionProgress.DropsBatchIff` | backend/.patches/kameo_es/src/event_handler/postgres.rs:1013-1043 | exactly which scripts drop a usable batch: a failed SAVEPOINT, or a failed ROLLBACK TO after an error, before any success |
| `ProjectionProgress.DeadLetterIsPoison` | backend/.patches/kameo_es/src/event_handler/postgres.rs:559-580 | over runs, a dead letter that a step adds is the event it delivered, and its handler ended in a permanent error |
| `ProjectionProgress.TransientRestarts` | backend/.patches/kameo_es/src/event_handler/postgres.rs:559-575 | over runs, an event with transient errors only ends the epoch and leaves the tables alone |
| `ProjectionProgress.FlushIff` | backend/.patches/kameo_es/src/event_handler/postgres.rs:824-926 | without faults a flush commits if and only if each due row fits the column and the worker knows of it if it exists; then every owned checkpoint is the handled watermark |
| `ProjectionProgress.FlushStuck` | backend/.patches/kameo_es/src/event_handler/postgres.rs:845-864 | a worker that does not know of a committed row, as after a COMMIT whose answer was lost, never flushes again: every flush fails and ends the epoch |
| `ProjectionProgress.BrokenStuck` | backend/.patches/kameo_es/src/event_handler/postgres.rs:1046-1059 | a broken transaction is never committed while rows are due |
| `ProjectionProgress.FaultFreeCall` | backend/.patches/kameo_es/src/event_handler/postgres.rs:502-644 | a fault-free event is applied, committed exactly when the interval in force is reached, or dead-lettered and committed if no attempt succeeded; nothing is lost |
| `ProjectionProgress.LiveIff` | backend/.patches/kameo_es/src/event_handler/postgres.rs:525-534 | the sample of a new partition is kept, and after each handled event the worker is live if and only if it has handled every partition it met up to its sample |
| `ProjectionProgress.FaultFreeRun` | backend/.patches/kameo_es/src/event_handler/postgres.rs:502-644 | in a run without faults and with any crashes the tables are exact, only a crash ends an epoch, and a timer flush commits everything delivered to its worker |
| `ProjectionFindings.PoisonPublishesBatch` | backend/.patches/kameo_es/src/event_handler/postgres.rs:658-716 | a poison event discards nothing: the whole batch before it is published and it is the only dead letter added |
| `ProjectionFindings.SavepointFailureLosesEvent` | backend/.patches/kameo_es/src/event_handler/postgres.rs:1013-1022 | a concrete run in which a failed SAVEPOINT loses an event |
| `ProjectionFindings.RejectedCommitLosesEvent` | backend/.patches/kameo_es/src/event_handler/postgres.rs:1061-1084 | a concrete run in which a rejected COMMIT loses an event |
| `ProjectionFindings.CrashHeals` | backend/.patches/kameo_es/src/event_handler/postgres.rs:1061-1084 | a concrete run whose losing step is followed by a crash, with exact tables throughout |
| `ProjectionFindings.UndecodableMarks` | backend/.patches/kameo_es/src/event_handler/postgres.rs:308-391 | the undecodable path covers its message and moves neither the checkpoint nor the worker's flushed watermark back |
| `ProjectionFindings.UndecodableExactIff` | backend/.patches/kameo_es/src/event_handler/postgres.rs:308-391 | the undecodable path keeps the tables exact if and only if its message is the first uncovered one |
| `ProjectionFindings.SyncedFlushRegresses` | backend/.patches/kameo_es/src/event_handler/postgres.rs:1183-1215 | with or without uncommitted events of the partition, the worker's next flush moves the checkpoint back over the message if and only if the worker had handled an event of that partition |
| `Causation.TrackAllScans` | backend/.patches/kameo_es/src/entity_actor.rs:83-104 | the incremental index equals a scan of the whole history, out-of-order causes included |
| `Causation.SkipIff` | backend/.patches/kameo_es/core/src/lib.rs:90-131 | a command is skipped exactly when the history holds a later version of its source, or the same version with the same command |
| `EntityLog.AcceptsIff` | backend/.patches/kameo_es/src/entity_actor.rs:283-338 | a batch with its per-event expected versions is accepted as a whole if and only if the stream is still at the actor's version |
| `EntityLog.FoldIndex` | backend/.patches/kameo_es/src/entity_actor.rs:60-105 | the cached index is the index of the replayed history |
| `EntityLog.FoldEntity` | backend/.patches/kameo_es/src/entity_actor.rs:60-82 | the cached entity is the result of applying the log's events one after the other |
| `EntityLog.FoldHistory` | backend/.patches/kameo_es/src/entity_actor.rs:60-82 | the history that rate limiting counts has each event's command and time |
| `EntityRuns.StepGood` | backend/.patches/kameo_es/src/entity_actor.rs:268-357 | every step of every actor keeps the history serial and each cache a replayed prefix |
| `EntityRuns.SerialHistory` | backend/.patches/kameo_es/src/entity_actor.rs:439-503 | in every run, every batch is what its command decides on the replay of exactly the log before it |
| `EntityRuns.LawfulHistory` | backend/.patches/kameo_es/src/entity_actor.rs:120-166 | in every run every batch met its caller's expected version at the number of events before it, was within the rate limit, had not been executed before, and is the entity's answer on their replay |
| `EntityRuns.LawfulAppends` | backend/.patches/kameo_es/src/entity_actor.rs:107-166 | conversely a command that passes these checks on a caught-up actor is appended, with its metadata and time on every event |
| `EntityRuns.CachesReplay` | backend/.patches/kameo_es/src/entity_actor.rs:168-237 | in every run every actor's cached state is the replay of a prefix of the log, after failed appends and partial resyncs too |
| `EntityRuns.CausedOnce` | backend/.patches/kameo_es/src/entity_actor.rs:149-158 | in a serial log source versions do not decrease behind a named command, which does not recur at the same version |
| `EntityRuns.CausedOnceInRuns` | backend/.patches/kameo_es/core/src/lib.rs:42-44 | in every reachable log at most one batch carries a given source stream, source version and command |
| `EntityRuns.NamelessNeverSkipped` | backend/.patches/kameo_es/src/entity_actor.rs:83-104 | a history without command names never makes a command skipped |
| `EntityRuns.NamelessCausesRepeat` | backend/.patches/kameo_es/src/entity_actor.rs:83-104 | any sequence of source versions, repeated or decreasing, has a serial log of nameless commands |
| `EntityActor.Actor.constructor` | backend/.patches/kameo_es/src/entity_actor.rs:240-259 | a new actor caches the replay of the empty prefix |
| `EntityActor.Actor.Apply` | backend/.patches/kameo_es/src/entity_actor.rs:60-105 | applying an event updates state, version, history and causation index as the replay does |
| `EntityActor.Actor.Resync` | backend/.patches/kameo_es/src/entity_actor.rs:168-237 | the paged resync terminates, keeps a replayed prefix even when a read or an event fails and it stops early, and ends at the full log when caught up |
| `EntityActor.Actor.AppendEvents` | backend/.patches/kameo_es/src/entity_actor.rs:268-357 | an accepted batch was decided on the whole log; a rejected one changes nothing and means the log had moved |
| `EntityActor.Actor.Try` | backend/.patches/kameo_es/src/entity_actor.rs:107-166 | one attempt, with its own clock reading: it settles the command, or the log had moved and nothing was appended |
| `EntityActor.Actor.Execute` | backend/.patches/kameo_es/src/entity_actor.rs:426-504 | a command's events were decided on exactly the log before them, at most one batch is accepted, at most six append requests are made, the version assertions hold throughout, and it fails with too many conflicts only if no retry was quiet |
| `PhotoKey.StepAgrees` | backend/crates/infra/src/vault.rs:260-328 | every request of every call keeps agreement and never replaces a stored record |
| `PhotoKey.KeyAgreement` | backend/crates/infra/src/vault.rs:260-303 | in every interleaving any two keys ever returned are the same 32 bytes, the unwrapped record |
| `PhotoKey.LosingCandidate` | backend/crates/infra/src/vault.rs:285-303 | a call that lost the race returns its own candidate only if the record holds that key |
| `PhotoKey.FineCall` | backend/crates/infra/src/vault.rs:260-303 | in every interleaving a call none of whose requests fails does not fail, whoever wins the race, as long as the record yields a key |
| `PhotoKey.CallEnds` | backend/crates/infra/src/vault.rs:260-303 | every request brings its call nearer to its end, so a call makes at most six |
| `PhotoKey.FaultFails` | backend/crates/infra/src/vault.rs:260-328 | a request that fails ends its call |
| `PhotoKey.PhotoSseCKey` | backend/crates/infra/src/vault.rs:260-303 | the call itself: a returned key is the unwrapped record whatever rivals write, an existing record stays, and without failures a key is returned |
| `Cost.HalfUpNearest` | backend/crates/core/src/ai/cost.rs:37-44 | the rounded quotient is the unique integer within half a unit, ties up |
| `Cost.ProductFits` | backend/crates/core/src/ai/cost.rs:51-59 | no intermediate value leaves i128 for any u64 count and positive i64 rate |
| `Cost.PricedNearest` | backend/crates/core/src/ai/cost.rs:51-83 | token and energy prices are within half a unit of the exact amount unless they saturate |
| `Cost.UnitPrices` | backend/crates/core/src/ai/cost.rs:51-83 | a million tokens cost the token rate and a kilowatt-hour the energy rate |
| `Cost.TokenTotalNearest` | backend/crates/core/src/ai/cost.rs:114-143 | the token figure is within three half units of the exact price, cached tokens at the card's cached rate or else the input rate, never more of them than input tokens |
| `Cost.AggregateUsage` | backend/crates/core/src/ai/cost.rs:149-155 | the accumulating loop computes the saturated sums of all counters |
| `Cost.PriceEnergy` | backend/crates/core/src/ai/cost.rs:175-208 | the loop computes both sums and sets the flag exactly when some request was capped |
| `Cost.CapPerRequest` | backend/crates/core/src/ai/cost.rs:85-100 | the sum of per-request minima is at most each sum, and below the raw sum exactly when a request was capped |
| `Cost.CappedFlagIff` | backend/crates/core/src/ai/cost.rs:175-208 | the reported figures differ exactly when a request was capped and the effective sum does not saturate |
| `Cost.CostPermuted` | backend/crates/core/src/ai/cost.rs:149-208 | reordering the calls changes no counter, no figure and no flag |
| `Cost.RoundingSlack` | backend/crates/core/src/ai/cost.rs:114-143 | without saturation, n capped energy figures exceed the token cost priced once by at most 3(n+1)/2 nano |
| `Cost.TotalHonest` | backend/crates/core/src/ai/cost.rs:247-329 | a total is shown exactly when something was recorded, all of it is priced and in one currency, and then it is the whole sum; each other status is characterised |
| `Cost.FigureIff` | backend/crates/core/src/ai/cost.rs:247-281 | when a component counts as priced, and that the decision's figure includes its energy |
| `Cost.TotalCurrency` | backend/crates/core/src/ai/cost.rs:283-329 | which currency is shown without a number |
| `Cost.DecisionBreakdown` | backend/crates/core/src/ai/cost.rs:345-409 | the decision component is priced by its own card or not at all |
| `Cost.CostBreakdown` | backend/crates/core/src/ai/cost.rs:425-505 | the snapshot of a job: figures, and when its total is a number and which |
| `SortKey.New` | backend/crates/core/src/shared.rs:549-564 | validation accepts exactly the valid keys, unchanged |
| `SortKey.LessAt` | backend/crates/core/src/shared.rs:510-520 | byte order is decided at the first difference |
| `SortKey.InsertBetween` | backend/crates/core/src/shared.rs:588-627 | the prefix loop computes the specified key or error |
| `SortKey.MidpointBetween` | backend/crates/core/src/shared.rs:588-627 | a result is valid, at most one byte longer than the lower bound, above it, and below the upper bound in every case but one, which returns that bound |
| `SortKey.MidpointFails` | backend/crates/core/src/shared.rs:588-627 | exactly when insertion fails and with which error |
| `SortKey.RoomIff` | backend/crates/core/src/shared.rs:573-587 | the one non-strict case is the one in which no key of any length lies between the bounds |
| `SortKey.ThirdInsertCollides` | backend/crates/core/src/shared.rs:588-627 | two insertions behind the same key use up the room and a third returns an existing key |
| `SortKey.RefusedRoomIff` | backend/crates/core/src/shared.rs:585-627 | a refusal for length is wrong, in that a valid key fits, exactly when the upper bound goes on behind the first difference or the lower bound can step up behind it |
| `SortKey.RefusedThoughRoom` | backend/crates/core/src/shared.rs:585-587 | a concrete refused pair with room |
| `Acknowledgement.BatchesOrdered` | backend/.patches/kameo_es/src/event_handler.rs:502-533 | while running, acknowledgements increase, name processed cursors, and leave fewer than a batch uncovered |
| `Acknowledgement.FlushedCovers` | backend/.patches/kameo_es/src/event_handler.rs:535-550 | after a clean exit the last acknowledgement is the last processed cursor, sent once |
| `Acknowledgement.AckTracker.Processed` | backend/.patches/kameo_es/src/event_handler.rs:523-533 | recording a cursor yields the acknowledgement the history calls for |
| `Acknowledgement.AckTracker.Flush` | backend/.patches/kameo_es/src/event_handler.rs:535-550 | flushing yields the pending partial batch, if any |
| `Acknowledgement.Subscription.Process` | backend/.patches/kameo_es/src/event_handler.rs:400-420 | an event for which the processor reports an error is not acknowledged |
| `Acknowledgement.Subscription.Run` | backend/.patches/kameo_es/src/event_handler.rs:336-367 | over any messages the acknowledgements are a prefix of those the processed events call for; on a clean exit all of them, for all events; on an error exit fewer than a batch is unacknowledged, or exactly one when a due acknowledgement failed |
| `StreamIdentity.BuildParts` | backend/.patches/kameo_es/core/src/stream_id.rs:123-160 | for a category without hyphen, building and taking apart are inverse |
| `StreamIdentity.IdsRoundTrip` | backend/.patches/kameo_es/core/src/stream_id.rs:133-139 | a compound identifier comes back as the list it was joined from |
| `StreamIdentity.TypeAppended` | backend/.patches/kameo_es/core/src/stream_id.rs:201-214 | the type is added behind the existing ones |
| `StreamIdentity.TypedParts` | backend/.patches/kameo_es/core/src/stream_id.rs:201-214 | pushing a type changes only the category and keeps the identifiers |
| `StreamIdentity.PushTypeIff` | backend/.patches/kameo_es/core/src/stream_id.rs:201-214 | a pushed type is found and pushing is idempotent exactly when it was there or no colon stands outside the category only |
| `StreamIdentity.StreamId.SetId` | backend/.patches/kameo_es/core/src/stream_id.rs:186-198 | for every string, the category stays and the identifier is replaced or inserted |
| `StreamIdentity.StreamId.PushType` | backend/.patches/kameo_es/core/src/stream_id.rs:201-214 | the in-place edits compute the specified string |
| `AiConfiguration.AiConfig.Apply` | backend/crates/core/src/ai/aggregate.rs:77-145 | the field assignments compute the specified state |
| `AiConfiguration.AiConfig.Replay` | backend/crates/core/src/ai/aggregate.rs:77-145 | replaying a log yields its fold |
| `AiConfiguration.RunGood` | backend/crates/core/src/ai/aggregate.rs:147-328 | in every run the version is the number of events and the decision slot is complete or empty |
| `AiConfiguration.CountIff` | backend/crates/core/src/ai/aggregate.rs:147-182 | versions keep counting events if and only if no valid create meets a stream that has events |
| `AiConfiguration.SecondCreateResets` | backend/crates/core/src/ai/aggregate.rs:147-182 | a concrete second create: two events at version 1 |
| `AiConfiguration.RevokedForever` | backend/crates/core/src/ai/aggregate.rs:184-279 | from a revoked state on, the log never changes |
| `AiConfiguration.ProviderHandOff` | backend/crates/core/src/ai/aggregate.rs:196-202 | a step that changes the provider changes the vault key |
| `AiConfiguration.NoLostUpdate` | backend/crates/core/src/ai/aggregate.rs:203-208 | in every run at most one command issued against a given version is accepted, and accepted commands come in the order of their versions |
| `AiConfiguration.StepsTakeEffect` | backend/crates/core/src/ai/aggregate.rs:147-279 | in every run an accepted create stores all it carries, an accepted update its settings and resolved slot, and a revoke against the current version is accepted |
| `AiConfiguration.CuratedWhenIntroduced` | backend/crates/core/src/ai/aggregate.rs:230-238 | in every run each decision model in use was curated at the step that introduced it, however the catalog rotated since |
| `Continuity.OutfitGaps` | backend/crates/core/src/ai/continuity.rs:102-133 | the nested loops compute the specified list of gaps |
| `Continuity.GapsSound` | backend/crates/core/src/ai/continuity.rs:102-133 | every reported gap is a named, undressed figure of a scene with action, at its first mention |
| `Continuity.GapsComplete` | backend/crates/core/src/ai/continuity.rs:102-133 | every such figure of every such scene is reported |
| `Continuity.GapsOrdered` | backend/crates/core/src/ai/continuity.rs:102-133 | gaps come in document order, so no pair of scene and figure comes twice |
| `Continuity.PriorOutfit` | backend/crates/core/src/ai/continuity.rs:141-163 | the latest earlier scene that dresses the figure, with its first outfit there, or none if there is none |
| `Continuity.ResolveOutcome` | backend/crates/core/src/ai/continuity.rs:369-423 | continue if and only if there is a prior and its mass reaches the floor and every rival; infer if and only if its mass reaches the floor, beats continuation and is not beaten; the confidence is the largest mass |

## Left out

- ProjectionRuns.StepTracked: a call of a worker is one step, so other workers do not run in the middle of it. Their partitions are disjoint and each writes its own rows only.
- ProjectionFindings.UndecodableExactIff: the undecodable-message path is proved for single steps and is not a step of the runs, because it breaks their invariants.
- ProjectionWorker.Worker.Handle: sequence numbers are unbounded; the casts to the signed checkpoint column are not modelled, except the SMALLINT limit on partition numbers.
- A worker that stops normally and is spawned again from the old checkpoint map, and the flush timers' schedule.
- Back-off delays, tracing and metrics; rate limiting is a function parameter of the entity.
- EntityActor.Actor.Try: command handlers see the command's time but not the `executed_at` instant of their context, from which `Context::now` reads a clock; deciding is a function of state, command and that time.
- Multi-entity transactions in the command service, which append with the caller's expected version and do not extend the serial history.
- Application metadata and CBOR encoding of events; SierraDB, Redis, sqlx and the Vault HTTP protocol beyond their atomic checked append, transactions and compare-and-set. The photo-key record is never deleted.
- PhotoKey.PhotoSseCKey: base64 decoding is part of the unwrap parameter.
- Cost.CostBreakdown: image costs, which it never sets, and price dates and sources, which it only copies; i128 accumulation over the calls is unbounded.
- SortKey.InsertBetween: keys are ASCII; slicing inside a multi-byte character cannot occur for validated keys.
- Continuity.ResolveOutcome: probabilities are real numbers, with NaN and infinities as one unusable value; rounding of f32 is not modelled.
- Continuity.OutfitGaps: text normalisation is uninterpreted. Candidate looks and the decision request are left out; they only assemble fields.
- AiConfiguration.RunGood: creation only on an empty stream is the adapter's expected version and part of the run; whitespace trimming is a parameter.
- Acknowledgement.Subscription.Process: success is what the processor reports; that the Postgres processor reports it before its worker handles the event is not part of this model.
- ProjectionTables.RestartResumes: about a new processor; a restart of the subscription alone is `ResubscribeRepeats`.
- Classification of database errors as permanent or transient: a parameter of each attempt.
- Everything else in the repository: HTTP routes, authentication, localisation, prompts, document parsing, the other aggregates, projections' SQL, and the frontend.
