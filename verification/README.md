# Centaeris: verified models of the worker and benchmark protocols

This project models the parts of Centaeris whose correctness depends on interleavings, failures and
crashes, and proves what those parts promise over every run. `dafny verify dfyconfig.toml` checks all of it.

| file | what it models |
|---|---|
| `Common.dfy` | optional values and bytes |
| `LeaseGuard.dfy` | the critical sections of the worker's lease guard |
| `LeaseWorker.dfy` | one worker: its renewal and executing threads around the guard, and whole operations of each |
| `LeaseProtocol.dfy` | any number of workers and the job row of the store, over every interleaving |
| `YieldHandoff.dfy` | the bounded replay of one yield request, the executors that call it behind the guard, and its meeting with the store |
| `YieldStore.dfy` | the store's exact-replay acknowledgement of a yield |
| `Outbox.dfy` | the fan-out of terminal events to waiters by pages and cursors |
| `Admission.dfy` | the admission gate of a benchmark batch |
| `Environment.dfy` | trial environments on top of the gate, with lost create answers and failed cleanups |
| `HaltableAcquire.dfy` | waiting for an allocation unless the batch halts, cancelled at any wait |
| `Scheduler.dfy` | the two-worker trial scheduler, with workers that die in their accounting |
| `EventTail.dfy` | the monitor's tailing reader of the event file, byte by byte |
| `CatchUp.dfy` | when repeated snapshots read a file to its end, and when they are never refused |
| `EarlyRefusal.dfy` | when the refusal of a long read without a line feed is right |
| `Projection.dfy` | what one event does to the monitor's projection |
| `EventWriter.dfy` | the event writer, and its agreement with readers that look afterwards or meanwhile |
| `Telemetry.dfy` | the bounded queue in front of the writer |
| `Delivery.dfy` | queue, writer and tailing reader together, from submit to the screen |
| `Agent.dfy` | the one prompt of a trial, through a durable checkpoint |
| `Retirement.dfy` | retiring an instance under one operation id |
| `Coverage.dfy` | the time covered by a list of intervals |
| `Document.dfy` | writing the canonical text of a document and the manifest that points into it |
| `Overlap.dfy` | the verdict on physical overlap and its streaks |
| `Usage.dfy` | the paged fold of provider usage, and the monitor's check of it |

Concurrent code is a state machine over its critical sections, with `Runs` and `After` for whole runs; sequential
code that updates objects is a class whose methods are proved equal to functions on the object's value. Where an
operation has several critical sections (`LeaseHeartbeats`, `FailOpenProjection`, `WorkspaceAgent`) the class runs the
whole operation, lets the other threads act in between, and its `Valid` says that everything it did is a run of the
machine, so the theorems about runs hold of it.

## Assumptions

- Time. Over one renewal window the store's clock, plus the amount by which a reclaiming worker's wall clock may be
  ahead of it, stays within the lease (`Timely`). `TimelyIsNeeded` shows that mutual exclusion fails without it.
- The store. Renewals set the expiry from the store's clock and need the current owner and an unexpired lease; claims
  mint fresh owner tokens; a retirement record is immutable and controller epochs only grow; an operation id names one
  run. These are taken from the store's own code where the table cites it.
- The host. Once it has retired the instance of an allocation it creates no other for that allocation.
- Checkpoints. A process may die anywhere and a checkpoint write leaves the old file or the new one. The directory is
  not synchronised after the rename, so a power loss could bring an earlier file back; `PowerLossExact` says exactly when
  a second prompt is then possible.
- Clocks of the monitor. A reader's clock is not behind the clock at which the writer accepted an event.

## Where the code does less than one might expect

Each of these is proved as an exact condition, with the code kept as it is.

- The reader refuses a read that is longer than a line may be and holds no line feed, also when the line feed is already
  on disk past that read. Carriage returns end lines too, so the read may consist of short, acceptable lines. The refusal
  is right exactly when one of the lines ended inside it is too long or refused, or its last piece has no acceptable
  ending (`EarlyRefusalExact`); whatever a line means, exactly when one of its lines is too long (`RightForEveryFold`).
  Accepted events ended by carriage returns are refused by the monitor's own reader (`ReturnsRefused`).
- A record for which `submit` answered yes can be dropped without the queue being marked degraded, exactly while the
  queue is open, or a submit has passed the flags, or a record was missed by the consumer (`SilentLoss`,
  `LossFromStart`).
- A worker whose accounting raises before it gives its slot back, for example because a summary cannot be written, takes
  the slot and its place in the running count with it. Another worker that waits goes on exactly when that has not
  happened, and otherwise nothing can happen any more (`NobodyWaitsInVain`); both waits are reached from ordinary plans
  (`ParkedForEver`, `SlotlessForEver`), and the report can be reached exactly while no worker has died or raised
  (`ReportExact`).
- A call that waits for an allocation or the halt can be cancelled. Its allocation then stays in the gate with nobody to
  give it back exactly when a cancellation arrives during the handler's own release or during the last wait of a call
  that is about to return the allocation (`LeakExact`); one cancellation is enough (`CancelsExact`).
- A client that restarts after its retirement was accepted, and then observes another epoch, builds a different body
  and is refused for as long as it lives; a call can still return exactly when the client keeps no body or the accepted
  one (`CanReturnExact`, `ObservationDecides`).
- A preview that grows between the look at its size and its copy can push the outputs over the total limit when there
  is a workbook (`TotalExact`).
- The reported streak is greedy. For an inventory of n environments it is the longest run of intervals that share the
  target, for every series of samples, exactly when the target is n, which is the default (`StreakExact`); otherwise it
  is at least half of it (`GreedyWithinHalf`).

## Model

| member | source | states |
|---|---|---|
| LeaseGuard.Acked | packages/worker/worker.py:305-324 | an acknowledgement extends the window exactly when the owner is not lost and the answer came before both the old and the granted deadline; otherwise the owner is lost |
| LeaseGuard.Check | packages/worker/worker.py:330-341 | the health check clears exactly a healthy owner before its deadline, waits exactly while an unconfirmed one may still recover, and otherwise loses the owner |
| LeaseWorker.MoveKeepsWorker | packages/worker/worker.py:246-397 | every move of either thread keeps the guard's invariant, including that a loss found while a request is out was a missed deadline |
| LeaseWorker.RefusesKept | packages/worker/worker.py:266-341 | a guard past helping stays so through every move of both threads and every answer still to come |
| LeaseWorker.WorkerRuns | packages/worker/worker.py:246-397 | over every run of a worker the invariant holds and a guard that refuses refuses for ever |
| LeaseWorker.HealthAsked | packages/worker/worker.py:330-341 | a whole health check that returns does so for a confirmed owner before its deadline; one that raises does so for good |
| LeaseWorker.HandoffSpends | packages/worker/worker.py:360-383 | a whole handoff that answers, yes or no, leaves a guard that refuses for ever; granted, the renewal thread is gone and the deadline is ahead |
| LeaseWorker.RefusedAsk | packages/worker/worker.py:330-383 | a guard that refuses answers no to every later check and never grants a handoff |
| LeaseWorker.LeaseHeartbeats.constructor | packages/worker/worker.py:246-282 | the guard opens with its first heartbeat out and nothing confirmed |
| LeaseWorker.LeaseHeartbeats.RequireHealthyLease | packages/worker/worker.py:330-341 | the wait loop, with the renewal thread acting in between, is a run of the worker; it returns only for a confirmed owner in time and raises only for good |
| LeaseWorker.LeaseHeartbeats.TerminalHandoff | packages/worker/worker.py:360-383 | the two sections with their waits are a run of the worker; an answer spends the guard, and a grant returns the confirmed deadline with the renewal thread gone |
| LeaseWorker.LeaseHeartbeats.BeginAttempt | packages/worker/worker.py:272-282 | a request goes out exactly for an owner that is neither stopped nor lost and whose deadline was ahead when the clock was read; a guard that refuses still does |
| LeaseWorker.LeaseHeartbeats.TakeAnswer | packages/worker/worker.py:284-324 | an acknowledgement in time moves the deadline to the request's start plus the window, an unknown fate in time leaves the owner unconfirmed, anything else loses it; a guard that refuses never goes on |
| LeaseWorker.LeaseHeartbeats.Attempt | packages/worker/worker.py:271-328 | a whole attempt, with the executing thread acting while its request is out, section by section, is a run of the worker; an acknowledgement in time moves the deadline to the request's start plus the window, and a guard that refuses ends the thread |
| LeaseWorker.LeaseHeartbeats.Renew | packages/worker/worker.py:346-355 | the renewal loop is a run of the worker and ends at once on a guard that refuses |
| LeaseProtocol.InvKept | packages/worker/worker.py:246-397 | every step of any worker, the network or the store keeps each deadline backed by a renewal the store still honours |
| LeaseProtocol.ClearedMeansOwner | packages/worker/worker.py:330-341 | in every run, an owner that a health check lets through is the owner the store names, with more than the skew left, unless the job was cancelled under it |
| LeaseProtocol.MutualExclusion | packages/worker/worker.py:246-397 | in every run, two owners of a job are never let through at the same instant |
| LeaseProtocol.LostForever | packages/worker/worker.py:266-304 | in every run, a lost owner stays lost and is never let through, although the transport-failure branch overwrites the status; deadlines never move back |
| LeaseProtocol.HandoffIsFinal | packages/worker/worker.py:360-404 | in every run, after a handoff no heartbeat begins, no health check passes and no second handoff succeeds |
| LeaseProtocol.OwnerStep | packages/worker/worker.py:271-397 | what one step of anybody can do to an owner: never revive it, move its deadline back or undo its handoff |
| LeaseProtocol.StepIsTurn | packages/worker/worker.py:246-397 | seen from one owner every step of the system is a turn of its worker or leaves it alone, so runs of workers and of the system agree |
| LeaseProtocol.StandsKept | packages/runtime_server/src/postgres_store/lease_renewal.rs:29-60 | a renewal stays backed by the row through every step of the store and of other workers |
| LeaseProtocol.ClaimAndConfirm | packages/runtime_server/src/postgres_store/reliability.rs:176-184 | an unowned job can always be claimed by a new worker that gets through its first heartbeat |
| LeaseProtocol.TimelyIsNeeded | packages/runtime_server/src/postgres_store/reliability.rs:388-425 | whenever the timing assumption fails there is a run that lets two owners through at once, so the assumption is exact |
| YieldHandoff.YieldJob | packages/worker/worker.py:439-503 | the replay loop refines the recursive description of its requests and its ending |
| YieldHandoff.YieldRequests | packages/worker/worker.py:447-503 | at most as many yields as attempts, all the same request, no more reads than yields, and all begun before the confirmed deadline |
| YieldHandoff.YieldEnding | packages/worker/worker.py:447-503 | returns exactly on the exact echo; after an uncertain answer every other ending is handoff unknown, lost lease or cancelled job |
| YieldHandoff.YieldEndToEnd | packages/worker/worker.py:439-503 | against the store, with copies lost, late and repeated: a yield that returns is recorded exactly once, one that ends otherwise at most once |
| YieldHandoff.GuardedYield | packages/worker/worker.py:399-446 | a yield behind the guard's handoff sends only its own request before the deadline the handoff confirms, and spends the guard |
| YieldHandoff.SpentRecovery | packages/worker/worker.py:638-650 | once the work has asked the guard to hand off, the recovery's check is refused, so it sends nothing |
| YieldHandoff.UncertainLifecycleNeverFails | packages/worker/worker.py:927-974 | once a yield of a lifecycle job has unknown delivery, only that yield and its reads are ever sent: no failure report and no completion |
| YieldHandoff.UncertainControlNeverFails | packages/worker/worker.py:1206-1232 | the same for control jobs, by the guard's own refusal of the recovery |
| YieldStore.YieldsOnce | packages/runtime_server/src/postgres_store/reliability.rs:194-321 | however many copies of a yield arrive, it is recorded at most once, a positive answer means it is recorded, and a late copy changes nothing |
| YieldStore.AnsweredIsRecorded | packages/runtime_server/src/postgres_store/reliability.rs:194-321 | a copy that was answered positively at any point of a run is recorded exactly once at its end |
| YieldStore.Reachable | packages/runtime_server/src/postgres_store/reliability.rs:194-321 | in every run at most one yield is recorded per owner token and records are never lost |
| Outbox.TerminalDispatcher.constructor | packages/worker/worker.py:1030-1032 | a new dispatcher has no cursors |
| Outbox.TerminalDispatcher.Dispatch | packages/worker/worker.py:1038-1095 | a round's loop and its eviction loop refine the description of a round, failures included |
| Outbox.TerminalDispatcher.DispatchEvent | packages/worker/worker.py:1057-1089 | one event: wake a page, then keep a cursor or acknowledge |
| Outbox.HonestPageAccepted | packages/worker/worker.py:1008-1027 | the dispatcher's page test never refuses a page the server builds |
| Outbox.PageCovers | packages/runtime_server/src/job_protocol.rs:652-706 | a page with a next cursor covers every waiter up to it, a page without one covers every waiter left |
| Outbox.PublishedMeansCovered | packages/worker/worker.py:1038-1095 | in every run of rounds, lost requests and answers, evictions and restarts, an acknowledged event was delivered to every waiter that existed throughout |
| Outbox.PublishedSoon | packages/worker/worker.py:1038-1095 | an event that stays visible and answered is acknowledged within one round more than it has waiters left |
| Admission.AdmitSafe | scripts/harbor/workspace_plan.py:247-257 | admitting what fits keeps two slots, the budget and the exclusive trial alone |
| Admission.InvKept | scripts/harbor/workspace_plan.py:247-303 | every critical section keeps the host within budget, identities unique and the head awake |
| Admission.NoPermanentBlock | scripts/harbor/workspace_plan.py:278-303 | a parked head does not fit and some trial is active, so no wake-up is lost and no valid request waits for ever |
| Admission.AdmissionRuns | scripts/harbor/workspace_plan.py:220-303 | from an empty gate, in every run, all of that holds and admission through acquire is exactly the order of arrival minus the cancelled |
| Admission.Allocation.constructor | scripts/harbor/workspace_plan.py:199-206 | a new allocation is neither started nor released |
| Admission.Allocation.MarkCreationStarted | scripts/harbor/workspace_plan.py:208-212 | refused exactly for a released allocation, and never unset |
| Admission.AdmissionGate.constructor | scripts/harbor/workspace_plan.py:228-237 | an empty gate over the budget |
| Admission.AdmissionGate.Duplicate | scripts/harbor/workspace_plan.py:269-271 | finds an identity exactly when it is active or waiting |
| Admission.AdmissionGate.TryAcquireNow | scripts/harbor/workspace_plan.py:266-276 | rejects, finds no capacity or grants exactly as the gate's function does, with a fresh allocation |
| Admission.AdmissionGate.AcquireEnqueue | scripts/harbor/workspace_plan.py:278-284 | a valid, new identity joins the end of the line, anything else changes nothing |
| Admission.AdmissionGate.AcquireTurn | scripts/harbor/workspace_plan.py:284-292 | only the head is admitted, and only when it fits; anyone else parks |
| Admission.AdmissionGate.AcquireCancelled | scripts/harbor/workspace_plan.py:292-296 | a cancelled waiter leaves the line and everyone looks again |
| Admission.AdmissionGate.ReleaseAllocation | scripts/harbor/workspace_plan.py:214-303 | capacity comes back exactly for an active allocation with confirmed absence, or one that never started a creation |
| Environment.InvKept | scripts/harbor/workspace_environment.py:190-241 | every step of a trial, of the gate and of the host keeps each possible instance behind an active allocation |
| Environment.PhysicalBudget | scripts/harbor/workspace_environment.py:339-385 | in every run, with lost create answers, cancelled starts and failed cleanups, the instances that may exist are at most two, fit the budget and leave an 8 GiB one alone |
| Environment.WorkspaceEnvironment.constructor | scripts/harbor/workspace_environment.py:105-148 | a new environment has attempted and owns nothing |
| Environment.WorkspaceEnvironment.Start | scripts/harbor/workspace_environment.py:190-241 | no create request goes out without a marked, unreleased allocation, and exactly when one goes out |
| Environment.WorkspaceEnvironment.Stop | scripts/harbor/workspace_environment.py:339-385 | the allocation comes back exactly when nothing was attempted or absence is confirmed |
| Scheduler.Scan | scripts/harbor/workspace_benchmark.py:625-666 | a chosen trial is requestable, fits now, overtakes nobody, and is past the first only with retained capacity |
| Scheduler.NextTrial | scripts/harbor/workspace_benchmark.py:625-666 | the loop refines the scan |
| Scheduler.StepConserves | scripts/harbor/workspace_benchmark.py:668-680 | no step loses, copies or renames a trial |
| Scheduler.EveryTrialOnce | scripts/harbor/workspace_benchmark.py:616-780 | in every run each planned trial is in exactly one place under its one identity, and when both workers return nothing is pending and every trial is finished or unrun |
| Scheduler.NobodyWaitsInVain | scripts/harbor/workspace_benchmark.py:625-780 | in every run a worker that is parked, or wants a slot when there is none, waits for the other worker, which is at a trial; some run takes it out of its wait exactly when that worker has not died in its accounting, a living one that has the last slot returns it with its next step, and with a dead one nothing can happen any more |
| Scheduler.ReportExact | scripts/harbor/workspace_benchmark.py:668-796 | from every reachable state some run ends with both workers returned exactly when no worker has died or raised |
| Scheduler.ParkedForEver | scripts/harbor/workspace_benchmark.py:660-780 | from every plan of two trials whose first can be admitted, a run in which the second worker is parked and the first dies in its accounting |
| Scheduler.SlotlessForEver | scripts/harbor/workspace_benchmark.py:668-780 | from every plan whose first trial leaves room for either of the next two, a run in which a worker has an allocation, no slot is left and the other worker is dead |
| HaltableAcquire.StepKeeps | scripts/harbor/workspace_benchmark.py:453-485 | every step of the call, of its task, of the halt and of everybody else at the gate keeps the allocation returned, given back or struck, with the gate in agreement |
| HaltableAcquire.LeakExact | scripts/harbor/workspace_benchmark.py:453-485 | in every run a returned allocation is held for the caller, and without one the gate holds nothing of the call except exactly when a cancellation arrived at one of the two exposed waits |
| HaltableAcquire.CancelsExact | scripts/harbor/workspace_benchmark.py:453-485 | for a request the gate can grant at once, no run of at most n cancellations leaks exactly when n is zero |
| EventTail.FirstLine | scripts/harbor/workspace_monitor.py:364-364 | a line is never empty and never longer than the bytes |
| EventTail.Complete | scripts/harbor/workspace_monitor.py:361-361 | the complete part is the longest prefix that ends in a line feed |
| EventTail.ReadLines | scripts/harbor/workspace_monitor.py:364-373 | the loop over complete lines refines the recursive consumption, stopping at the first refused line |
| EventTail.TailRefinesReplay | scripts/harbor/workspace_monitor.py:330-374 | over any appends and snapshots the projection is the plain replay of the bytes before the offset, which is always the end of a line |
| CatchUp.SnapshotAdvances | scripts/harbor/workspace_monitor.py:357-374 | while a complete line is left and the next line feed lies within one read, a snapshot of accepted lines is not refused and goes past at least one |
| CatchUp.ForwardOrRefused | scripts/harbor/workspace_monitor.py:357-374 | before the last line feed a snapshot goes forward or refuses, and goes forward only when a line feed lies within the read |
| CatchUp.CatchesUp | scripts/harbor/workspace_monitor.py:330-374 | accepted lines within reads are read to the end in no more snapshots than bytes are left, and the projection is the replay of all of them |
| CatchUp.CatchesUpExact | scripts/harbor/workspace_monitor.py:330-374 | repeated snapshots reach the last complete line unrefused exactly when the complete lines replay and, from every line-feed boundary on the way, the next line feed lies within one read |
| CatchUp.NeverRefusedExact | scripts/harbor/workspace_monitor.py:330-374 | no snapshot is ever refused exactly when, in addition, the torn last line is within the limit |
| CatchUp.PlainFileWithinReads | scripts/harbor/workspace_monitor.py:361-367 | without carriage returns accepted lines are always within reads |
| EarlyRefusal.EarlyRefusalExact | scripts/harbor/workspace_monitor.py:361-367 | any faithful reader, any fold, any read over the limit without a line feed: it is refused, and nothing that could follow would replay exactly when a line ended in it is too long or refused or its last piece has no acceptable ending |
| EarlyRefusal.RightForEveryFold | scripts/harbor/workspace_monitor.py:361-367 | the refusal is right whatever a line means exactly when one of the lines of the read is too long |
| EarlyRefusal.PlainReadIsLong | scripts/harbor/workspace_monitor.py:361-367 | so it always is without a carriage return |
| Projection.JobProjection.constructor | scripts/harbor/workspace_monitor.py:132-151 | a new projection is empty |
| Projection.JobProjection.Event | scripts/harbor/workspace_monitor.py:215-276 | refines the acceptance of one event, and a refused event changes nothing |
| Projection.JobProjection.Duplicate | scripts/harbor/workspace_monitor.py:263-265 | the search finds exactly another trial of the same task and attempt |
| Projection.AcceptKeeps | scripts/harbor/workspace_monitor.py:215-276 | an accepted event keeps one trial per task and attempt, the planned count, valid rows and the bounded log, and changes no trial's identity, first start or first end |
| Projection.StreamCoherent | scripts/harbor/workspace_monitor.py:215-276 | over every accepted stream the same, and the sequence counts the events |
| Projection.LineFoldSteady | scripts/harbor/workspace_monitor.py:78-88 | what is accepted at one clock reading is accepted, to the same effect, at every later one |
| EventWriter.JobEvents.constructor | scripts/harbor/workspace_events.py:68-73 | an empty file over its quota |
| EventWriter.JobEvents.AppendEvent | scripts/harbor/workspace_events.py:75-100 | refines the append, torn writes included; the counters advance exactly on success |
| EventWriter.JobEvents.WriteLine | scripts/harbor/workspace_events.py:91-100 | a line is written whole and counted, or a part of it is there and the writer has failed |
| EventWriter.JobEvents.CloseFile | scripts/harbor/workspace_events.py:114-116 | the file stays as it is, and no later call changes anything |
| EventWriter.CallKeeps | scripts/harbor/workspace_events.py:75-100 | after every call the file is a prefix of the accepted events' lines, within the quota, and all of them until an append fails |
| EventWriter.ReplayWires | scripts/harbor/workspace_monitor.py:364-369 | replaying the lines of some events is accepting those events |
| EventWriter.WriterReaderAgree | scripts/harbor/workspace_events.py:75-100 | for every run of the writer and every byte prefix of its file, a fresh reader is not refused and shows exactly a prefix of the events the writer accepted, all of them when nothing failed |
| EventWriter.TailShowsPrefix | scripts/harbor/workspace_events.py:75-100 | in every interleaving of appends, torn ones included, a close and snapshots, the tailing reader is never refused and always shows exactly a prefix of the accepted events |
| EventWriter.ReturnsRefused | scripts/harbor/workspace_monitor.py:361-369 | any accepted events ended by carriage returns and longer than a line may be are refused by the monitor's own reader, even with the line feed on disk past the first read, although the file replays as those events |
| Telemetry.WrittenIsPrefix | scripts/harbor/workspace_events.py:147-192 | in every interleaving the written records are a gap-free prefix of the submitted ones and the queue keeps its bound |
| Telemetry.FailOpenProjection.constructor | scripts/harbor/workspace_events.py:133-141 | an empty queue, a running consumer |
| Telemetry.FailOpenProjection.Submit | scripts/harbor/workspace_events.py:147-160 | a whole submit, with everything else acting between its flag test and its put, is a run of the machine; a yes means the record is the last one accepted, a no that the queue is degraded or unchanged, and a closed or degraded queue refuses it unchanged |
| Telemetry.FailOpenProjection.PutRecord | scripts/harbor/workspace_events.py:150-160 | answers yes exactly when the record was queued; overflow and oversize degrade |
| Telemetry.FailOpenProjection.GetRecord | scripts/harbor/workspace_events.py:165-170 | takes the head, or leaves the loop only for a queue seen empty and then seen closed |
| Telemetry.FailOpenProjection.WriteRecord | scripts/harbor/workspace_events.py:171-182 | a taken record is written, or the queue is degraded and the loop left |
| Telemetry.FailOpenProjection.Run | scripts/harbor/workspace_events.py:162-192 | the consumer thread, with the submitters acting between any two of its steps, is a run of the machine; what it wrote is a prefix of what was accepted |
| Telemetry.SilentLoss | scripts/harbor/workspace_events.py:147-192 | from every state of the queue an accepted record can be lost without a degraded mark exactly when it is not degraded and is still open, or a submit has passed the flags, or a record was put behind the consumer's empty answer or left unwritten when it left its loop |
| Telemetry.LossFromStart | scripts/harbor/workspace_events.py:147-192 | such a loss happens from an empty queue of any positive bound |
| Delivery.StepLinked | scripts/harbor/workspace_events.py:75-192 | every step of submitters, consumer, writer and reader keeps the accepted events the redacted, numbered image of a prefix of the submitted records |
| Delivery.DisplayedWasSubmitted | scripts/harbor/workspace_events.py:75-192 | in every interleaving the tailing reader is never refused and displays exactly the first records that submit accepted, in order, redacted and numbered, with none left out; at the end of the file, all that were written as long as none has failed |
| Agent.ReadRunEvents | scripts/harbor/workspace_client.py:196-242 | the loop over stream items refines its description, and never goes back |
| Agent.SliceAdvances | scripts/harbor/workspace_client.py:245-259 | a slice moves the sequence forward or changes nothing, and ends running or final |
| Agent.MoveKept | scripts/harbor/workspace_agent.py:145-270 | every move between checkpoint writes keeps memory ahead of the disk and the prompt unsent unless uncertainty is durable |
| Agent.WriteKept | scripts/harbor/workspace_agent.py:52-63 | a checkpoint write only advances the checkpoint |
| Agent.PromptOnce | scripts/harbor/workspace_agent.py:145-270 | across any crashes and resumes the message is posted at most once, uncertainty is durable before it and never undone, the sequence never decreases, the run never changes and a final status is never left |
| Agent.PowerLossExact | scripts/harbor/workspace_agent.py:52-63 | if a power loss brings an earlier checkpoint back, another prompt can be posted exactly when that checkpoint is absent or still prepared |
| Agent.SecondPrompt | scripts/harbor/workspace_agent.py:201-213 | the checkpoint before the uncertain one, brought back after the prompt was sent, is such a case |
| Agent.WorkspaceAgent.constructor | scripts/harbor/workspace_agent.py:145-188 | no checkpoint, nothing sent, no process |
| Agent.WorkspaceAgent.WriteState | scripts/harbor/workspace_agent.py:52-63 | the checkpoint becomes the memory exactly on success, and is otherwise the old one |
| Agent.WorkspaceAgent.Load | scripts/harbor/workspace_agent.py:157-187 | the checkpoint is read, or the first one is written, as steps of the machine |
| Agent.WorkspaceAgent.TakeReceipt | scripts/harbor/workspace_agent.py:193-200 | a run is taken only from a receipt, and written down |
| Agent.WorkspaceAgent.MarkUncertain | scripts/harbor/workspace_agent.py:206-207 | success means the uncertain checkpoint is on disk |
| Agent.WorkspaceAgent.Submit | scripts/harbor/workspace_agent.py:193-213 | asks about an uncertain submission, or makes the one submission, as steps of the machine |
| Agent.WorkspaceAgent.PollOnce | scripts/harbor/workspace_agent.py:222-237 | one turn of the polling loop, written down before the next |
| Agent.WorkspaceAgent.Follow | scripts/harbor/workspace_agent.py:214-240 | binding and polling to the end of the run, an error or the death of the process, as steps of the machine |
| Agent.WorkspaceAgent.Recover | scripts/harbor/workspace_agent.py:241-270 | the recovery, as steps of the machine |
| Agent.WorkspaceAgent.Live | scripts/harbor/workspace_agent.py:145-270 | a whole life of the process is a run of the machine, so over any number of lives at most one prompt is posted and the checkpoint only advances |
| Agent.ResumeCompletes | scripts/harbor/workspace_agent.py:145-270 | a process that dies right after sending can be resumed and completes on the run of that one prompt |
| Retirement.Provisioner.constructor | scripts/harbor/workspace_provisioner.py:328-329 | a new client remembers no request |
| Retirement.Provisioner.Try | scripts/harbor/workspace_provisioner.py:655-690 | refines one round of the loop |
| Retirement.Provisioner.RetireInstance | scripts/harbor/workspace_provisioner.py:650-690 | the retry loop refines the recursive description of its posts and its ending |
| Retirement.CallBounds | scripts/harbor/workspace_provisioner.py:650-690 | at most three posts, a further one only after an epoch conflict, the kept body first, and an accepted one alone |
| Retirement.AcceptedBodyIsUnique | packages/runtime_server/src/postgres_store/residency/retirement.rs:94-145 | with lost, late and repeated requests and restarts, the server accepts at most one body and its record never changes |
| Retirement.ReplayStaysImmutable | scripts/harbor/workspace_provisioner.py:650-690 | while the process lives the accepted body is the one it keeps, is never changed and never conflicts with the record |
| Retirement.RetirementRuns | scripts/harbor/workspace_provisioner.py:650-690 | both, in every run from the start |
| Retirement.WedgedForever | scripts/harbor/workspace_provisioner.py:655-690 | a client that keeps another body than the accepted one never returns normally again |
| Retirement.CanReturnExact | scripts/harbor/workspace_provisioner.py:650-690 | once a body was accepted, a call of this process can still return exactly when it keeps no body or the accepted one |
| Retirement.ObservationDecides | scripts/harbor/workspace_provisioner.py:656-670 | after a restart it can return after an observation exactly when the observed epoch is the accepted one |
| Retirement.RestartWedges | scripts/harbor/workspace_provisioner.py:650-690 | such a run exists from every starting epoch |
| Coverage.Covered | perf/harness/experience_timing.py:148-154 | the total is the size of the union of the intervals, for any list |
| Coverage.Sweep | perf/harness/experience_timing.py:150-153 | the sweep over ordered intervals measures their union |
| Coverage.SortedKeeps | perf/harness/experience_timing.py:149-149 | sorting orders the intervals and keeps the union |
| Coverage.SameRowsSameCells | perf/harness/experience_timing.py:148-154 | the union does not depend on the order or repetition of the rows |
| Coverage.CoveredAtMostSum | perf/harness/experience_timing.py:148-154 | the union is at most the sum of the durations |
| Coverage.FirstRequest | perf/harness/experience_timing.py:235-237 | the earliest start, the first in the list among equals |
| Coverage.ClippedCells | perf/harness/experience_timing.py:252-257 | clipping every probe is intersecting their union with the window |
| Coverage.StartupOverlap | perf/harness/experience_timing.py:250-258 | the overlap is the part of the probes' union inside the first request, and absent exactly without requests or probes |
| Document.Output.WriteBounded | packages/document_processor/document_processor.py:597-600 | writes exactly when it stays within the limit |
| Document.Output.WriteChunks | packages/document_processor/document_processor.py:643-644 | chunk by chunk, succeeds exactly when everything fits |
| Document.WriteText | packages/document_processor/document_processor.py:623-634 | one page's text, with byte and line positions counted along the way equal to those read off the text |
| Document.WriteEntry | packages/document_processor/document_processor.py:641-644 | one manifest entry, with a comma after the first |
| Document.WritePages | packages/document_processor/document_processor.py:622-646 | the loop refines page-by-page drafting and stops at the first page that breaks a limit |
| Document.AddAllMeans | packages/document_processor/document_processor.py:622-646 | checking page by page is checking the finished text and manifest |
| Document.EntriesPoint | packages/document_processor/document_processor.py:634-640 | every entry selects exactly its page's text, and its lines are one plus the line feeds before each end |
| Document.RangesIncrease | packages/document_processor/document_processor.py:634-640 | the ranges are disjoint and in page order |
| Document.WriteDocument | packages/document_processor/document_processor.py:616-650 | text and manifest are written exactly when every limit is kept and there is a page |
| Document.CopyPreview | packages/document_processor/document_processor.py:651-654 | the preview is copied whole exactly when it fits beside the text |
| Document.WriteOutputs | packages/document_processor/document_processor.py:603-660 | succeeds exactly when every limit is kept, and leaves the text, the manifest of its entries, the preview and the workbook |
| Document.TotalExact | packages/document_processor/document_processor.py:603-660 | the outputs stay within the total limit for every document exactly when the preview did not grow, or there is no workbook, or no run can succeed |
| Overlap.Working | perf/harness/native_observer.py:30-50 | every active container by environment, nothing when two share one |
| Overlap.Summarize | perf/harness/native_observer.py:53-87 | refused exactly for a target outside the inventory; verified exactly when two adjacent known intervals share the target |
| Overlap.VerifiedExact | perf/harness/native_observer.py:77-87 | the streak rule is sound and complete for two adjacent intervals |
| Overlap.StreakSound | perf/harness/native_observer.py:77-83 | a running streak is that many known intervals and its common set is what they share |
| Overlap.ReportedStreakExists | perf/harness/native_observer.py:77-87 | a reported streak of k has k consecutive intervals that share the target |
| Overlap.StreakExact | perf/harness/native_observer.py:53-87 | for an inventory of n the reported streak is the longest shared run, for every series of samples, exactly when the target is n |
| Overlap.GreedyWithinHalf | perf/harness/native_observer.py:77-83 | for any target, a run of intervals that share it is at most twice the reported streak |
| Overlap.GreedyMissesLongest | perf/harness/native_observer.py:53-87 | for every target t, samples of t + 1 environments for which three intervals share t but the reported streak is two |
| Overlap.SeriesIntervals | perf/harness/native_observer.py:53-83 | any sets of environments, after a first empty interval, are the intervals of some samples |
| Usage.ProviderUsageAccumulator.constructor | scripts/harbor/workspace_metrics.py:60-68 | nothing counted, everything known |
| Usage.ProviderUsageAccumulator.Check | scripts/harbor/workspace_metrics.py:71-89 | the first loop accepts exactly valid pages in strictly increasing sequence |
| Usage.ProviderUsageAccumulator.AddOne | scripts/harbor/workspace_metrics.py:91-104 | refines the counting of one row |
| Usage.ProviderUsageAccumulator.ApplyPage | scripts/harbor/workspace_metrics.py:70-106 | a valid page is folded, a refused one changes nothing |
| Usage.CellNext | scripts/harbor/workspace_metrics.py:96-104 | a field stays known exactly while every row supplied it and the sum is in range |
| Usage.PageExtends | scripts/harbor/workspace_metrics.py:91-104 | a page that overlaps what was counted extends the counted prefix and nothing else |
| Usage.PagedFoldIsWholeFold | scripts/harbor/workspace_metrics.py:70-106 | over any polls, repeats, refusals and commits the totals are those of the log's counted prefix |
| Usage.SnapshotAccepted | scripts/harbor/workspace_monitor.py:91-113 | every snapshot passes the monitor's check, shows exactly the known sums, and is complete only if nothing committed at the last look was left out |
| Usage.UsageRuns | scripts/harbor/workspace_metrics.py:54-117 | all of it, in every run from a fresh accumulator |

## Left out

- HTTP, sockets, subprocesses, containers and the database: only their outcomes appear, as steps or parameters.
- Response shapes, schema field sets, digests and text redaction: each is settled by one branch.
- JSON: encoding and decoding of events are parameters with the round trip as their law; manifest entries are encoded by a parameter.
- Floating point: times, processor shares and rates are integers or reals, and rounding and closeness of floats are not modelled.
- The projection's other trial fields (text fields, reward, metrics) and the stored error of a refused stream.
- Replacement of the event file and the monitor's reset: a reset replays from the start, which the replay theorems cover from an empty reader.
- The provisioner's check that a kept request belongs to the same instance, and its cleanup observation beyond what `Environment.dfy` uses.
- The agent's validation of a checkpoint it did not write, its deadline arithmetic, context and notifications; a deadline is a failure that may occur at any guarded point.
- OCR, PDF, Office and workbook rendering: only the writing of their results.
- The observer's paused, resumed and unknown-reason counts.
- Memory metrics of the monitor's validator: only range checks.
- Cancellation of the batch itself: the scheduler's workers die only by raising.
