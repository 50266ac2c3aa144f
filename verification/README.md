# Verified models of the XOC services

This project models the parts of the XOC repository whose correctness is hard
to see from any one function, and proves what they are meant to guarantee. All
files are checked together with `dafny verify dfyconfig.toml`.

## The L6 supervised server

One supervisor owns at most one server process at a time. It grants the server
short leases over a private control channel, watches its heartbeats and the age
of its work, and retires and replaces it at most twice. The server admits
requests into four slots behind a gate that a lease keeps open. Time is counted
in whole microseconds of the one monotonic clock both processes read.

| file | what it models |
|---|---|
| `Gate.dfy` | the admission gate: lease, single opening, closing |
| `Pool.dfy` | the worker pool: slots, jobs, abandonment, snapshots, in every interleaving of its locked sections |
| `Control.dfy`, `Wire.dfy` | the newline-framed channel over a nonblocking socket, for any format that obeys its contract, and one concrete format for the commands |
| `Protocol.dfy` | what an observer of the supervisor may rely on: which event may follow which |
| `Supervisor.dfy` | the supervisor, method by method, proved to leave only accepted logs |
| `Server.dfy`, `Serving.dfy` | the child's control loop, and that each of its passes is a run of the whole system's steps |
| `System.dfy`, `Detection.dfy` | supervisor and children together: delayed commands, ignored commands, children that outlive their retirement |
| `Timing.dfy`, `Options.dfy`, `Decimal.dfy` | constants, options and results, decimal notation |

How the pieces fit: the classes do what the program does, on fields, and each
of their methods is tied to a step function or to an event. The lemmas are about
all sequences of those steps. `Supervisor` keeps a ghost log; its invariant says
that the log is accepted by `Protocol`, so every lemma there holds of every
supervisor. `System` lets a child obey the commands of that log late, or not at
all, but in order; that they arrive in order is what `Control` proves.
`Server.ControlLoop` says which acts on the pool each pass makes, and
`Serving.PassGoesOn` that they are steps which `System` lets that child take; so
its gate is the one the fences speak of. `System.ServiceHappens` builds a run in
which a request is served.

What the outside decides, the supervisor asks in methods of their own: the clock
(`Now`), the process table (`PollChild`, `Fork`, `Census`), the channel (`Offer`,
`ReadChannel`) and the parent (`AskParent`). They count what they refuse. The
supervisor itself can count a setback only where one is at hand: a deadline that
has passed, a channel that is not open, a stop, a fault, an answer that is not the
one asked for (`Befell`). So where a contract says that a startup, a retirement or
a recovery fails only if something went wrong, that something is real.

## The smaller algorithms

`Rollback.dfy` builds compensating plans; `Inbox.dfy` is the table in which
notification events are claimed with conditional writes, and `InboxClaims.dfy` the
workers that share it, each following the notification handler; `Workflow.dfy` interprets the ticket workflow's
transition table, and `Decisions.dfy` says which of its branches is taken by what
its tasks return; `Coordination.dfy` measures the uncovered part of a recovery
and summarises samples; `Pagination.dfy` is the in-memory table that pages and
counts reads; `Merge.dfy` merges report data over defaults.

## What turned out differently

- A close with the reason `starting`, given before the gate was ever opened,
  shuts nothing (`Gate.StartingCloseDoesNotLatch`). The control loop never gives
  that reason; `Gate.PrivateAdmissionExactly` says exactly what is admitted.
- After a stop request no lease is renewed, but a stop that arrives during
  STARTING does not prevent the one `open` command, which carries a lease: the
  wait looks at its condition before it looks at the stop. So a lease can still
  follow a stop exactly while the supervisor has not been started, or is STARTING
  with a child it did not give up and no `open` sent
  (`Protocol.LeaseAfterStopExactly`). At most one does
  (`Protocol.AtMostOneLeaseAfterStop`), and service ends within one lease of the
  stop or of that command (`System.StopFence`). `System.ServesAfterStop` is a run
  that serves two seconds after such a stop.
- UNAVAILABLE is not final for a supervisor that was never started. A tick that
  gives in before `start` leaves generation 0, and a later `start` announces
  STARTING and spawns (`Protocol.LateStartServes`). It is final exactly in every
  other generation (`Protocol.RestartableExactly`).
- The inbox's completing and failing updates carry no condition, and the handler
  fails an event on any exception, also one raised by the completing update. If
  that update takes effect and its answer is lost, the handler turns COMPLETED into
  FAILED, and the event is processed again (`Claims.HandlerCanLeaveCompleted`). If
  an early failure loses its answer, two workers can hold one event
  (`Claims.HandlerCanCrowd`). A record has one writer at most, and one exactly while
  PROCESSING, if and only if no such answer is lost (`Claims.OneWriterExactly`);
  `Claims.CompletedCanBeLeftExactly` and `Claims.CrowdsAndUnbalancesExactly` say
  which lost answer costs what.
- The timeout of the approval in the ticket workflow replaces the whole document,
  so the case that timed out is never registered (`Workflow.TimeoutIsNeverRegistered`);
  it would be exactly if the error were put somewhere other than over `$.state`
  (`Workflow.TimeoutRegistersExactly`). The end state's message says that such a
  ticket was marked; the model follows the transitions.
- A case given up after two executions is registered with three attempts, and a
  rejected one with one more than were executed: what is reported is the counter,
  which is raised after each execution (`Decisions.ReportedAttempts`).
- Rollback step ids are distinct exactly if the original ids read differently as
  text (`Rollback.UndoIdsDistinctExactly`); the number 1 and the text "1" collide
  (`Rollback.NumberAndTextCollide`).

## Model

| member | source | states |
|---|---|---|
| Gate.AdmissionGate.Renew | mcp/xoc_mcp_lab_l6/pool.py:118-128 | the lease is taken exactly for this generation, with a higher number, ending in the future but at most 1.05 s ahead (`Gate.RenewalExactly` over runs); a refusal changes nothing, and neither moves the door |
| Gate.AdmissionGate.TryOpen | mcp/xoc_mcp_lab_l6/pool.py:130-137 | the door opens exactly if ready, never opened before, not closed for a reason, and on a lease that a renewal could take (`Gate.OpeningExactly` over runs) |
| Gate.AdmissionGate.CloseDoor | mcp/xoc_mcp_lab_l6/pool.py:139-143 | the door is shut with this reason, and the first moment of being shut is kept |
| Gate.AdmissionGate.CheckPermits | mcp/xoc_mcp_lab_l6/pool.py:145-151 | the private probe before opening, everyone while open inside the lease (`Gate.PublicAdmissionExactly` over runs); a lapsed lease shuts the door |
| Gate.RenewalExactly | mcp/xoc_mcp_lab_l6/pool.py:118-128 | over any calls a renewal returns true if and only if it names this generation, its number exceeds every number accepted before, and its lease ends in the future but at most 1.05 s ahead; then that lease is in force and nothing else changed |
| Gate.OpeningExactly | mcp/xoc_mcp_lab_l6/pool.py:130-137 | over any calls an opening succeeds if and only if the child is ready, no opening succeeded before, no close gave a reason other than "starting" last, and its lease is one a renewal could take |
| Gate.DoorExactly | mcp/xoc_mcp_lab_l6/pool.py:118-151 | over any calls the door is open if and only if some call opened it and none since was a close or a check past the lease in force |
| Gate.PublicAdmissionExactly | mcp/xoc_mcp_lab_l6/pool.py:145-151 | over any calls the public is let in exactly while the door is held open and the lease that the last accepting call brought still runs |
| Gate.OpenIsOneInterval | mcp/xoc_mcp_lab_l6/pool.py:118-151 | over any calls the open states form one contiguous interval |
| Gate.ShutForGood | mcp/xoc_mcp_lab_l6/pool.py:127-137 | once it was open, a closed gate never opens again |
| Gate.AcceptedSequencesIncrease | mcp/xoc_mcp_lab_l6/pool.py:121-137 | accepted numbers strictly increase and at most one opening succeeds |
| Gate.LeaseProvenance | mcp/xoc_mcp_lab_l6/pool.py:118-137 | the lease in force comes from an accepted call of this run and reaches at most the slack past it |
| Gate.PublicAdmissionIsFenced | mcp/xoc_mcp_lab_l6/pool.py:145-151 | a public check that passes lies inside an accepted lease |
| Gate.PrivateAdmissionExactly | mcp/xoc_mcp_lab_l6/pool.py:145-151 | over any calls the private probe is let in exactly before the first opening, with no close but one that said "starting" last, or whenever the public is |
| Gate.StartingCloseDoesNotLatch | mcp/xoc_mcp_lab_l6/pool.py:139-148 | a close with the reason "starting" before opening shuts nothing |
| Gate.CloseIsFinal | mcp/xoc_mcp_lab_l6/pool.py:130-151 | after any other close nothing is admitted and nothing opens |
| Gate.BatchesRun | mcp/xoc_mcp_lab_l6/pool.py:106-151 | calls made in batches take the gate where the joined calls take it |
| Pool.BoundedPool.Run | mcp/xoc_mcp_lab_l6/pool.py:193-243 | nothing happens for a timeout that is not positive; otherwise the answer is Invalid exactly for a bad scope, Busy exactly if the pool is closed, the gate refuses or four jobs are live, and else the next id, admitted unless the submission fails |
| Pool.AdmissionExactly | mcp/xoc_mcp_lab_l6/pool.py:198-243 | a function gets a slot if and only if its scope is valid, the pool is open, the gate permits it, fewer than four jobs are live and it can be submitted; it is then in the table under the next id, and nothing else in the table changes |
| Pool.AnswerExactly | mcp/xoc_mcp_lab_l6/pool.py:198-243 | Busy is said if and only if the pool is closed, the gate refuses or four jobs are live |
| Pool.StartExactly | mcp/xoc_mcp_lab_l6/pool.py:214-219 | a queued job starts if and only if its scope is valid and the gate still permits it; else it is refused |
| Pool.FinishExactly | mcp/xoc_mcp_lab_l6/pool.py:257-274 | a done future gives its slot back at once and leaves the table with all its stamps |
| Pool.OthersExactly | mcp/xoc_mcp_lab_l6/pool.py:222-299 | every other event stamps one job at most, and only a shutdown closes the pool |
| Pool.ShutdownIsFinal | mcp/xoc_mcp_lab_l6/pool.py:198-299 | after a shutdown nothing is admitted any more, in every run |
| Pool.BoundedPool.Reserve | mcp/xoc_mcp_lab_l6/pool.py:198-243 | a slot is taken, with the next id, exactly if the pool is open, the gate permits and fewer than four jobs are live |
| Pool.BoundedPool.Submit | mcp/xoc_mcp_lab_l6/pool.py:202-243 | a submission that fails leaves the job table as it was and gives its slot back |
| Pool.BoundedPool.Begin | mcp/xoc_mcp_lab_l6/pool.py:214-219 | the gate is asked again at the start; a refused job never starts |
| Pool.BoundedPool.StampCallable | mcp/xoc_mcp_lab_l6/pool.py:222-225 | the end of the callable is stamped once, after its start |
| Pool.BoundedPool.StampContext | mcp/xoc_mcp_lab_l6/pool.py:226-228 | the context reset is stamped last |
| Pool.BoundedPool.MarkAbandoned | mcp/xoc_mcp_lab_l6/pool.py:249-255 | a timeout or cancellation marks the job and nothing else |
| Pool.BoundedPool.IsReconciled | mcp/xoc_mcp_lab_l6/pool.py:175-180 | whether permits, semaphore, counters and job table agree |
| Pool.BoundedPool.CurrentSnapshot | mcp/xoc_mcp_lab_l6/pool.py:287-299 | every live job with its admission and its abandonment, the gate and its lease, at one moment; unbalanced books shut the gate |
| Pool.BoundedPool.Release | mcp/xoc_mcp_lab_l6/pool.py:257-274 | a done future gives its slot back; the semaphore is never over-released |
| Pool.BoundedPool.Conclude | mcp/xoc_mcp_lab_l6/pool.py:257-274 | a future that is not done shuts the gate and gives nothing back |
| Pool.BoundedPool.Stop | mcp/xoc_mcp_lab_l6/pool.py:257-299 | shutdown closes the pool and the gate and keeps the books |
| Pool.AlwaysReconciled | mcp/xoc_mcp_lab_l6/pool.py:175-299 | in every interleaving the books balance, at most four functions are queued or running, and each id is live or released |
| Pool.NeverAccountingMismatch | mcp/xoc_mcp_lab_l6/pool.py:263-292 | no snapshot and no finishing job ever shuts the gate for unbalanced books |
| Pool.NoEarlyRelease | mcp/xoc_mcp_lab_l6/pool.py:230-285 | a slot comes back only from a done future or a submission that made none; abandonment changes no permit |
| Pool.ReleasedOnce | mcp/xoc_mcp_lab_l6/pool.py:234-274 | each admission id is released at most once |
| Pool.LifecycleOrder | mcp/xoc_mcp_lab_l6/pool.py:206-274 | admitted, started, reset, done, released, in that order, for every job that ran, and its callable's end, where stamped, between start and reset |
| Pool.PublicChecksAreFenced | mcp/xoc_mcp_lab_l6/pool.py:200-217 | admission and start are both inside the lease |
| Pool.SnapshotsFollow | mcp/xoc_mcp_lab_l6/pool.py:206-299 | across snapshots of one pool the oldest admission never goes back |
| Pool.ShownJobReleasedLater | mcp/xoc_mcp_lab_l6/pool.py:257-299 | a job a snapshot shows is released no earlier than the snapshot's stamp |
| Pool.OnlyAdmissionAdds | mcp/xoc_mcp_lab_l6/pool.py:198-243 | a job that was not there before was just admitted, with the stamp it carries |
| Pool.GrownOverRun | mcp/xoc_mcp_lab_l6/pool.py:198-274 | admission times are never rewritten and new jobs are admitted later |
| Pool.GateRefinement | mcp/xoc_mcp_lab_l6/pool.py:154-299 | a pool run drives its gate through an ordinary run of gate calls |
| Pool.PublicCheckNeedsALease | mcp/xoc_mcp_lab_l6/pool.py:198-219 | a public check passes only inside a lease handed to this pool earlier in the run |
| Pool.LeaseOnlyByCommand | mcp/xoc_mcp_lab_l6/server.py:133-160 | only an accepted lease or open command moves the lease |
| Control.RoundTrip | mcp/xoc_mcp_lab_l6/control.py:144-169 | a message is encoded exactly if its body and the newline fit into 4096 bytes, as one line, which decodes to it |
| Control.ControlChannel.Flush | mcp/xoc_mcp_lab_l6/control.py:206-224 | what is on the wire plus the backlog does not change; frames stay only if the socket would not take them, it closes exactly if the socket broke, and then no byte of the newest frame has left |
| Control.ControlChannel.Send | mcp/xoc_mcp_lab_l6/control.py:191-204 | an open channel refuses a message only with eight frames waiting that the socket would not take, raises only for one that cannot be encoded, and closes only if the socket broke; otherwise it is accepted with the next number, and of any other nothing is written |
| Control.ControlChannel.Queue | mcp/xoc_mcp_lab_l6/control.py:197-204 | an error exactly for a message that cannot be encoded; a number exactly for one that is accepted |
| Control.ControlChannel.Receive | mcp/xoc_mcp_lab_l6/control.py:244-284 | at most sixteen messages, appended to what was delivered; it stops before sixteen passes only if the socket has nothing more, is gone, or to raise; an error closes for good and loses the batch |
| Control.ControlChannel.Gather | mcp/xoc_mcp_lab_l6/control.py:248-284 | the batch is what the lines taken in this call amount to |
| Control.ControlChannel.Step | mcp/xoc_mcp_lab_l6/control.py:250-283 | what was buffered and read loses exactly its first complete line, which is taken, skipped or an error by its content; without one the data waits, or is an error from 4096 bytes on; a read only when no line was complete |
| Control.ControlChannel.Judge | mcp/xoc_mcp_lab_l6/control.py:271-283 | the line is taken off the input and gives a message exactly if it decodes, is of this generation and has a higher number; another generation or an old number is skipped, a line that is no message is an error |
| Control.ControlChannel.Close | mcp/xoc_mcp_lab_l6/control.py:286-291 | closed is permanent and empties both buffers |
| Control.DigestIsOrdered | mcp/xoc_mcp_lab_l6/control.py:279-283 | whatever the peer sends, what gets through is of this generation with strictly increasing numbers |
| Control.ChannelBounds | mcp/xoc_mcp_lab_l6/control.py:191-291 | at most eight frames of backlog and less than one maximal message of input between calls, against any peer |
| Control.LinesAreFrames | mcp/xoc_mcp_lab_l6/control.py:248-272 | complete lines of a prefix of a sender's stream are exactly its first frames |
| Control.FramingRefinement | mcp/xoc_mcp_lab_l6/control.py:191-284 | for any partial writes and reads the delivered messages are a prefix of the accepted ones, in order, without duplicates, rejections or errors |
| Control.NothingLost | mcp/xoc_mcp_lab_l6/control.py:191-284 | once every byte has arrived and been taken, exactly the accepted messages are delivered |
| Wire.FieldsRoundTrip | mcp/xoc_mcp_lab_l6/control.py:144-169 | written fields are read back |
| Wire.MessageRoundTrip | mcp/xoc_mcp_lab_l6/control.py:144-169 | written commands are read back |
| Wire.FormatIsLawful | mcp/xoc_mcp_lab_l6/control.py:144-169 | the contract the framing asks of a format can be met |
| Wire.FormatAcceptsALease | mcp/xoc_mcp_lab_l6/control.py:94-118 | the format accepts a lease command |
| Protocol.Extend | mcp/xoc_mcp_lab_l6/supervisor.py:108-121 | an allowed event makes a longer accepted log |
| Protocol.OneLiveChild | mcp/xoc_mcp_lab_l6/supervisor.py:272-304 | at most one unreaped child at any time, a spawn only when there is none, at most three generations |
| Protocol.SpawnedOnce | mcp/xoc_mcp_lab_l6/supervisor.py:272-306 | no generation is spawned twice |
| Protocol.ReadinessIsEarned | mcp/xoc_mcp_lab_l6/supervisor.py:320-358 | READY and DEGRADED come after a sound hello, a heartbeat, an ok probe at occupancy 0 and an OPEN acknowledgement of that generation |
| Protocol.UnavailableIsFinal | mcp/xoc_mcp_lab_l6/supervisor.py:443-463 | after UNAVAILABLE in a generation that was started there is no STARTING, READY, spawn, incident or lease |
| Protocol.RestartableExactly | mcp/xoc_mcp_lab_l6/supervisor.py:443-459 | a supervisor that has just announced UNAVAILABLE can still serve if and only if it was never started |
| Protocol.LateStartServes | mcp/xoc_mcp_lab_l6/supervisor.py:450-459 | the input for that: UNAVAILABLE, then STARTING and a spawn |
| Protocol.NoRenewalAfterStop | mcp/xoc_mcp_lab_l6/supervisor.py:245-253 | after a stop was seen no lease is renewed |
| Protocol.NoRenewalAfterFailure | mcp/xoc_mcp_lab_l6/supervisor.py:209-253 | after a request to fail closed the lease of that started generation is not renewed |
| Protocol.AtMostOneLeaseAfterStop | mcp/xoc_mcp_lab_l6/supervisor.py:245-270 | at most one lease follows a stop, that of an open command |
| Protocol.LeaseAfterStopExactly | mcp/xoc_mcp_lab_l6/supervisor.py:260-349 | exactly when a lease can still follow a stop: not started yet, or STARTING with a child not given up and no open command sent |
| Protocol.LatestIsFurthest | mcp/xoc_mcp_lab_l6/supervisor.py:249-254 | every lease reaches one second past its grant, and the latest is the furthest |
| Protocol.IncidentFreezesLease | mcp/xoc_mcp_lab_l6/supervisor.py:461-477 | from an incident on its generation gets no lease, and the last one ends within a second of the decision |
| Protocol.EndFreezesLease | mcp/xoc_mcp_lab_l6/supervisor.py:443-448 | the same from UNAVAILABLE on, and from a stop or a request to fail closed on once STARTING is over |
| Protocol.StopBoundsLease | mcp/xoc_mcp_lab_l6/supervisor.py:245-349 | after any stop a generation's latest lease is the one it had, or that of the one open command sent since |
| Protocol.FrozenForGood | mcp/xoc_mcp_lab_l6/supervisor.py:245-256 | a generation that gets no lease any more keeps its last |
| Protocol.UnconfirmedIsSound | mcp/xoc_mcp_lab_l6/supervisor.py:533-562 | an unconfirmed work age is held against a child only if a heartbeat of its generation showed a job, the oldest shown, with that deadline; no heartbeat of that generation was stamped at or after the deadline; and the window had passed or the channel had refused to ask for a snapshot about it |
| Protocol.StaleIsSound | mcp/xoc_mcp_lab_l6/supervisor.py:525-528 | a heartbeat is called stale only if none of that generation was stamped in the two seconds before the decision |
| Protocol.BlameIsSound | mcp/xoc_mcp_lab_l6/supervisor.py:521-528 | a crash is blamed only after an exit of that generation was seen, and a lost control only after that very fault, or a closed channel, was |
| Supervisor.Supervisor.constructor | mcp/xoc_mcp_lab_l6/supervisor.py:70-106 | a new supervisor is at rest with an empty log |
| Supervisor.PutAck | mcp/xoc_mcp_lab_l6/supervisor.py:191-195 | the new acknowledgement is kept, and at most eight are |
| Supervisor.OldestOverdue | mcp/xoc_mcp_lab_l6/supervisor.py:545-547 | none if no job is five seconds old, else an overdue job that no job predates |
| Supervisor.OldestNeverGoesBack | mcp/xoc_mcp_lab_l6/supervisor.py:553-558 | the oldest admission of an earlier snapshot bounds those of every later one |
| Supervisor.Supervisor.SendCommand | mcp/xoc_mcp_lab_l6/supervisor.py:151-154 | a number comes back exactly if an open channel accepted the command, and then it is logged under the next number |
| Supervisor.Supervisor.HandleHello | mcp/xoc_mcp_lab_l6/supervisor.py:170-177 | only the first hello of the owned process, with a plausible clock, is kept |
| Supervisor.Supervisor.HandleHeartbeat | mcp/xoc_mcp_lab_l6/supervisor.py:178-190 | only a newer heartbeat with a plausible stamp and jobs replaces the last one |
| Supervisor.Supervisor.HandleAck | mcp/xoc_mcp_lab_l6/supervisor.py:191-195 | the acknowledgement is recorded under its command and number |
| Supervisor.Supervisor.HandleProbe | mcp/xoc_mcp_lab_l6/supervisor.py:199-203 | only the first probe result counts |
| Supervisor.Supervisor.HandleReport | mcp/xoc_mcp_lab_l6/supervisor.py:165-208 | a message of another clock domain is a fault and nothing of it is kept; every other report does exactly what its kind asks for, and one of no known kind is a fault |
| Supervisor.Supervisor.HearAll | mcp/xoc_mcp_lab_l6/supervisor.py:165-208 | no message of a batch is passed over |
| Supervisor.Supervisor.ReceiveParent | mcp/xoc_mcp_lab_l6/supervisor.py:209-243 | a stop or a failure the parent asks for is taken up, and nothing else is |
| Supervisor.Supervisor.ReceiveChild | mcp/xoc_mcp_lab_l6/supervisor.py:156-208 | an open channel is read once and every message it gave has had its effect, was superseded or left a fault; nothing is heard over a closed one; a receive that raises closes it and sets control_invalid |
| Supervisor.Supervisor.RenewLease | mcp/xoc_mcp_lab_l6/supervisor.py:248-256 | a due renewal sends and records one lease of a second, or records the failure; otherwise nothing happens |
| Supervisor.Supervisor.Pump | mcp/xoc_mcp_lab_l6/supervisor.py:245-258 | both sides are listened to, nothing that was decided changes, and a renewal that is due was made or its failure recorded |
| Supervisor.Supervisor.Wait | mcp/xoc_mcp_lab_l6/supervisor.py:260-270 | true only if the condition holds by the deadline, false only past it or when interrupted without it |
| Supervisor.Supervisor.Check | mcp/xoc_mcp_lab_l6/supervisor.py:320-329 | each condition of a wait, exactly: started safely, probe answered, acknowledged, exited, or drained by a snapshot sent since the close that shows the gate shut and no job |
| Supervisor.Supervisor.Judge | mcp/xoc_mcp_lab_l6/supervisor.py:263-269 | given up exactly past the deadline or when interrupted without the condition, over exactly with the condition in time |
| Supervisor.Supervisor.Phase | mcp/xoc_mcp_lab_l6/supervisor.py:134-143 | a phase is good exactly if inside its budget and successful where required |
| Supervisor.Supervisor.Announce | mcp/xoc_mcp_lab_l6/supervisor.py:276-284 | the next generation starts with nothing heard |
| Supervisor.Supervisor.Spawn | mcp/xoc_mcp_lab_l6/supervisor.py:287-315 | a spawn that succeeds holds the process, is connected to it and renews its lease; one that fails leaves no child and no lease |
| Supervisor.Supervisor.AwaitStart | mcp/xoc_mcp_lab_l6/supervisor.py:320-329 | past this wait there were a sound hello and a heartbeat; it fails only after four seconds or when interrupted without them |
| Supervisor.Supervisor.AwaitProbe | mcp/xoc_mcp_lab_l6/supervisor.py:330-337 | past this wait the probe passed at occupancy 0; it fails only with something that went wrong |
| Supervisor.Supervisor.AwaitOpen | mcp/xoc_mcp_lab_l6/supervisor.py:338-349 | past this wait readiness is earned; it fails only with something that went wrong |
| Supervisor.Supervisor.ReachReady | mcp/xoc_mcp_lab_l6/supervisor.py:350-358 | READY only if earned and inside the recovery budget, and always then |
| Supervisor.Supervisor.Startup | mcp/xoc_mcp_lab_l6/supervisor.py:272-358 | the next generation, READY with its lease renewed, or not READY because something went wrong; the reap-required error exactly if a child is still held |
| Supervisor.Supervisor.Retire | mcp/xoc_mcp_lab_l6/supervisor.py:360-441 | renewal is off whatever the child answers; the handle is given up only for a process seen to exit, residual says whether one is left, and it fails only with something that went wrong |
| Supervisor.Supervisor.CloseAndDrain | mcp/xoc_mcp_lab_l6/supervisor.py:370-391 | a child whose close was acknowledged is given time to drain, unless it has exited |
| Supervisor.Supervisor.AwaitDrained | mcp/xoc_mcp_lab_l6/supervisor.py:380-391 | the drain ends early only with nothing running, or with the child gone |
| Supervisor.Supervisor.GiveIn | mcp/xoc_mcp_lab_l6/supervisor.py:443-448 | UNAVAILABLE, with renewal off |
| Supervisor.Supervisor.Start | mcp/xoc_mcp_lab_l6/supervisor.py:450-459 | READY in generation 1, or UNAVAILABLE because something went wrong, for any supervisor that was never started, also one that a tick made UNAVAILABLE; the error exactly if it was started before |
| Supervisor.Supervisor.OpenIncident | mcp/xoc_mcp_lab_l6/supervisor.py:461-477 | a justified decision stops renewal at once and counts an attempt while there are any |
| Supervisor.Supervisor.Restart | mcp/xoc_mcp_lab_l6/supervisor.py:490-497 | after a good retirement the reap-required error cannot occur |
| Supervisor.Supervisor.Recover | mcp/xoc_mcp_lab_l6/supervisor.py:461-500 | READY in the next generation with one attempt more, or UNAVAILABLE, which needs two attempts before it or something that went wrong |
| Supervisor.Supervisor.SettleConfirmation | mcp/xoc_mcp_lab_l6/supervisor.py:533-544 | a pending confirmation is settled exactly by a heartbeat at or after its deadline, becomes an incident exactly when its window has passed without one, and waits otherwise |
| Supervisor.Supervisor.OpenConfirmation | mcp/xoc_mcp_lab_l6/supervisor.py:553-562 | an incident at once if the window has passed; else a snapshot is asked for, and an incident exactly if that was refused |
| Supervisor.Supervisor.CheckAge | mcp/xoc_mcp_lab_l6/supervisor.py:545-562 | over-age work calls for exactly one of: an incident at once, a confirmation that is asked for, or an incident because the window passed or the request was refused |
| Supervisor.Supervisor.RequestClose | mcp/xoc_mcp_lab_l6/supervisor.py:370-379 | a close counts as acknowledged only by a CLOSED acknowledgement of this generation, and stays unacknowledged only if the child is gone or something went wrong |
| Supervisor.Supervisor.CheckGate | mcp/xoc_mcp_lab_l6/supervisor.py:563-570 | an incident exactly if a snapshot sent since opening shows the gate shut; otherwise DEGRADED exactly if an awaiter has left |
| Supervisor.Supervisor.Diagnose | mcp/xoc_mcp_lab_l6/supervisor.py:521-570 | a full check finds exactly: an exit, a control fault, a closed channel, two seconds of silence, or what the work calls for, in that order; and nothing else |
| Supervisor.HealthyIsKept | mcp/xoc_mcp_lab_l6/supervisor.py:521-570 | a child that runs, with no fault on an open channel and a heartbeat younger than 2 s, is never called crashed, lost or silent; and if none of its work is over 5 s, no confirmation is open and its gate was not found shut since it opened, it is not blamed at all |
| Supervisor.Supervisor.Examine | mcp/xoc_mcp_lab_l6/supervisor.py:521-570 | a full check decides an incident exactly if it finds one; without one the child, its generation, the attempts and the service stay |
| Supervisor.Supervisor.Inspect | mcp/xoc_mcp_lab_l6/supervisor.py:512-570 | a check is full exactly once 0.25 s have passed or a known deadline is due; one that is not decides nothing |
| Supervisor.Supervisor.DeadlineDue | mcp/xoc_mcp_lab_l6/supervisor.py:515-518 | exactly if a confirmation is open, the heartbeat is two seconds old, or a known job is five |
| Supervisor.Supervisor.TakeFailure | mcp/xoc_mcp_lab_l6/supervisor.py:502-511 | a request to fail closed is taken up once, and renewal is off from there on |
| Supervisor.Supervisor.Tick | mcp/xoc_mcp_lab_l6/supervisor.py:502-570 | a tick decides an incident exactly if it finds one in what it sees; with none, and no failure asked for, the child, its generation and the service stay, and on a sound channel its lease was renewed within 0.25 s of the tick's look; a tick that leaves it in service read a clock at which the heartbeat is younger than 2 s and every known job younger than 5.2 s |
| Supervisor.Supervisor.Shutdown | mcp/xoc_mcp_lab_l6/supervisor.py:572-593 | stopped and UNAVAILABLE, residual exactly if a child is left; a second call changes nothing |
| Supervisor.Supervisor.Run | mcp/xoc_mcp_lab_l6/supervisor.py:595-603 | it ends stopped and UNAVAILABLE; exit code 0 exactly if no child is left; the error of a second start comes after the cleanup |
| Supervisor.OwnedIsUnreaped | mcp/xoc_mcp_lab_l6/supervisor.py:272-275 | the generations the log holds for unreaped are the one owned child, or none |
| Server.ControlLoop.OnLease | mcp/xoc_mcp_lab_l6/server.py:133-134 | a lease command is one renewal of the gate under its own number, and the lease is its own exactly if the gate accepts it |
| Server.ControlLoop.OnClose | mcp/xoc_mcp_lab_l6/server.py:140-146 | the gate is shut before the answer, which tells the true occupancy; the lease stays as it was |
| Server.ControlLoop.OnProbe | mcp/xoc_mcp_lab_l6/server.py:147-152 | the probe is started once |
| Server.ControlLoop.FinishProbe | mcp/xoc_mcp_lab_l6/probe.py:90-109 | the probe passes only if its answers are right and nothing runs; otherwise the gate is shut for good |
| Server.ControlLoop.OnOpen | mcp/xoc_mcp_lab_l6/server.py:153-160 | OPEN is answered exactly when the gate was opened by this command, after a passed probe, with nothing running and inside the lease |
| Server.ControlLoop.OnStop | mcp/xoc_mcp_lab_l6/server.py:161-164 | the gate is shut and the loop ends |
| Server.ControlLoop.Handle | mcp/xoc_mcp_lab_l6/server.py:131-164 | each command is exactly the gate call it asks for and the looks at the pool around it, each enabled in its turn; no command admits or releases work, none undoes a close, and none but a lease or an open moves the lease |
| Server.ControlLoop.Beat | mcp/xoc_mcp_lab_l6/server.py:190-200 | one heartbeat exactly when an interval has passed, showing the pool at or after its stamp |
| Server.ControlLoop.SendHeartbeat | mcp/xoc_mcp_lab_l6/server.py:190-199 | the heartbeat is the pool's snapshot; the accounting fault is never sent |
| Server.ControlLoop.Pass | mcp/xoc_mcp_lab_l6/server.py:125-201 | the commands received in their order, or the close that follows a receive that raised, then the beat, and nothing else; a close among them leaves the gate shut, whatever surrounds it |
| Server.ControlLoop.HandleEach | mcp/xoc_mcp_lab_l6/server.py:131-164 | the acts of a batch are those of its commands, one after another |
| Server.DoesJoin | mcp/xoc_mcp_lab_l6/server.py:125-201 | what was done in two stretches was done in one |
| Serving.ActIsAStep | mcp/xoc_mcp_lab_l6/server.py:125-201 | whatever other threads and generations did before it, the loop's next act is a step the whole system can make, and touches this child alone |
| Serving.PassIsProper | mcp/xoc_mcp_lab_l6/server.py:125-201 | over commands the supervisor sent, a pass obeys each at most once, in the order they were sent |
| Serving.PassGoesOn | mcp/xoc_mcp_lab_l6/server.py:125-201 | a pass of the loop over commands its supervisor sent is a run of the system's own steps, and leaves in its gate no lease beyond the latest one sent |
| System.LeaseFence | mcp/xoc_mcp_lab_l6/supervisor.py:245-256 | in every run no public request passes a generation's gate at or after the end of the latest lease sent to it |
| System.IncidentFence | mcp/xoc_mcp_lab_l6/supervisor.py:461-477 | nor one second or more after an incident of that generation was decided |
| System.EndFence | mcp/xoc_mcp_lab_l6/supervisor.py:443-448 | nor one second or more after the last stamp before UNAVAILABLE, or before a stop or a request to fail closed outside STARTING |
| System.StopFence | mcp/xoc_mcp_lab_l6/supervisor.py:245-349 | after any stop, also one in STARTING, service ends within one lease of the stop or of the one open command sent since |
| System.ServesAfterStop | mcp/xoc_mcp_lab_l6/supervisor.py:260-349 | a run that serves two seconds after a stop in STARTING |
| System.ServesAfterRenewal | mcp/xoc_mcp_lab_l6/supervisor.py:245-256 | a run that opens at 0 with a lease until 1 s, renews at 0.25 s, and serves the public at 1.1 s |
| System.PublicServiceIsEarned | mcp/xoc_mcp_lab_l6/supervisor.py:320-349 | the public is served only by a generation whose hello, heartbeat and probe came before its open command |
| System.BeatsFromOnePool | mcp/xoc_mcp_lab_l6/server.py:190-195 | the heartbeats a supervisor holds come from one pool, as the work deadline of a tick supposes |
| Detection.DeadlinesAreMet | mcp/xoc_mcp_lab_l6/supervisor.py:502-570 | after such a tick, and with a child of the run at the other end, the heartbeat and work deadlines hold outright |
| System.WorkOverAgeIsReal | mcp/xoc_mcp_lab_l6/supervisor.py:545-551 | an incident for work over age shows a job whose slot is given back, if ever, at least five seconds after its admission |
| System.UnconfirmedWorkIsReal | mcp/xoc_mcp_lab_l6/supervisor.py:533-562 | when an incident rests on an unconfirmed work age, a step of the run admitted a job to that child's pool exactly five seconds before the deadline it names |
| System.ServiceHappens | mcp/xoc_mcp_lab_l6/supervisor.py:272-358 | there is a run in which a public request is served |
| Rollback.IndexSteps | src/remediation/rollback.py:22-27 | an index of the steps exactly if their ids are present and unique |
| Rollback.ReadResults | src/remediation/rollback.py:28-38 | the steps that succeeded, in order, or the error of the first result that does not fit |
| Rollback.BuildUndo | src/remediation/rollback.py:41-54 | undo steps exactly if every completed change can be taken back, else the error of the last that cannot |
| Rollback.StrippedExactly | src/remediation/rollback.py:48-50 | a command counts exactly if something is left of it without white space at its ends |
| Rollback.BuildRollbackPlan | src/remediation/rollback.py:12-62 | a plan comes back for exactly the acceptable inputs, and it undoes the completed steps |
| Rollback.AcceptableExactly | src/remediation/rollback.py:28-56 | what the last checks decide |
| Rollback.CompletedIsOf | src/remediation/rollback.py:28-36 | the completed steps are the plan's successful ones, in the order of their results |
| Rollback.UndoRestores | src/remediation/rollback.py:12-18 | if compensations invert their steps, running the plan after the completed steps gives the original state back |
| Rollback.OnePairEach | src/remediation/rollback.py:41-54 | one adjacent undo and verify for each completed change, last change first, numbered from 1, with its commands, its declared risk or "risky", and its description or id |
| Rollback.UndoIdsDistinctExactly | src/remediation/rollback.py:51-54 | the new step ids are distinct exactly if the original ids read differently |
| Rollback.NumberAndTextCollide | src/remediation/rollback.py:22-54 | the ids 1 and "1" are accepted together and collide |
| Inbox.KeysAreDistinct | src/notifications/inbox.py:28-29 | different events never share a record |
| Claims.OneWriterExactly | src/handlers/workers/notification_events.py:171-276 | with any number of workers, stale reads, lost answers and deaths, a record has one writer at most, and one exactly while PROCESSING, if and only if no completing or failing update inside the `try` loses its answer |
| Claims.CompletesOnce | src/handlers/workers/notification_events.py:259-276 | in such a run an event completes at most once, and once exactly if it ends COMPLETED |
| Claims.CompletedStays | src/handlers/workers/notification_events.py:259-276 | from any state such a run reaches, a completed record is never touched again |
| Claims.ClaimsBalance | src/handlers/workers/notification_events.py:171-276 | as long as early failures keep their answers, a record has one active worker at most, and successful claims are the failures plus the one that is processed or completed |
| Claims.CompletedCanBeLeftExactly | src/handlers/workers/notification_events.py:259-276 | a step makes it possible to leave COMPLETED if and only if it is an ending update that loses its answer |
| Claims.CrowdsAndUnbalancesExactly | src/handlers/workers/notification_events.py:207-276 | two active workers, or claims that do not balance, become possible if and only if the step is an early failure that loses its answer |
| Claims.HandlerCanLeaveCompleted | src/handlers/workers/notification_events.py:259-276 | a run in which the handler itself fails a completed event |
| Claims.HandlerCanCrowd | src/handlers/workers/notification_events.py:207-276 | a run in which two workers hold one event |
| Inbox.BuildExpression | src/notifications/inbox.py:98-107 | the placeholders are all different and name their own field and value |
| Inbox.ExpressionSetsFields | src/notifications/inbox.py:98-113 | applying the expression sets exactly the given fields |
| Inbox.InboxTable.Claim | src/notifications/inbox.py:32-81 | it succeeds if and only if there is no record, or the record is FAILED and reads so; then it is a new record or a reclaimed one, and nothing else changes |
| Inbox.InboxTable.PutItem | src/notifications/inbox.py:53-58 | written if and only if there is no such record, with the key, the event, PROCESSING and both stamps |
| Inbox.InboxTable.UpdateIfFailed | src/notifications/inbox.py:63-81 | it succeeds exactly for a FAILED record, which is then PROCESSING with the new stamp, without the last error and otherwise as it was; nothing else changes |
| Inbox.InboxTable.UpdateEvent | src/notifications/inbox.py:98-113 | the record with the given fields set |
| Inbox.InboxTable.CompleteEvent | src/notifications/inbox.py:84-88 | COMPLETED, with the new stamp and the campaign if there is one; every other field is kept |
| Inbox.InboxTable.FailEvent | src/notifications/inbox.py:91-95 | FAILED, with the new stamp, at most 512 characters of the error and the campaign if there is one; every other field is kept |
| Workflow.EveryRunEnds | serverless/services/automation-resources.js:147-226 | whatever its Task states return, a run has ended or aborted after sixty steps |
| Workflow.AtMostTwoExecutions | serverless/services/automation-resources.js:147-226 | no run executes a plan more than twice |
| Workflow.ExecutionWasApproved | serverless/services/automation-resources.js:155-181 | a plan is executed only right after an approval of its own |
| Workflow.RegisteredExactlyOnce | serverless/services/automation-resources.js:227-279 | a run that ends registered entered exactly one registration, any other end none |
| Decisions.ResolutionDecides | serverless/services/automation-resources.js:197-209 | a status check that returns "resolved" leads to the registration of a success, any other status to another attempt, and none to an error |
| Decisions.SuccessWasResolved | serverless/services/automation-resources.js:197-209 | a success is registered only right after a status check that returned "resolved", and an attempt is counted only after one that returned something else |
| Decisions.ApprovalDecides | serverless/services/automation-resources.js:155-172 | an approval that comes back true leads to the execution, any other answer to a rejection, a timeout to its case, and another error ends the run |
| Decisions.RejectionWasNotApproved | serverless/services/automation-resources.js:155-172 | a rejection is registered only right after an approval that was not true |
| Decisions.AssessmentDecides | serverless/services/automation-resources.js:66-78 | the ticket is worked on if and only if the assessment of a complete input returns `canResolve` true |
| Decisions.SearchDecides | serverless/services/automation-resources.js:79-91 | the planner is given the similar case exactly if the search found one |
| Decisions.PlanDecides | serverless/services/automation-resources.js:92-130 | the work goes on if and only if the planner returns a first plan with a first step; else the ticket is marked as having none |
| Decisions.SimilarCaseIsKept | serverless/services/automation-resources.js:130-146 | the attempts are set up with the similar case exactly if the search found one |
| Decisions.AttemptsDecide | serverless/services/automation-resources.js:147-154 | another approval is asked for exactly until the plan was executed twice |
| Decisions.ExecutionDecides | serverless/services/automation-resources.js:173-196 | an execution goes to the status check exactly if it returns, of a plan that was selected; else it is marked as failed |
| Decisions.FailureWasEarned | serverless/services/automation-resources.js:147-196 | a failure is registered only after two executions, or right after one marked as failed |
| Decisions.ReportedAttempts | serverless/services/automation-resources.js:227-250 | the attempts a registration reports are the executions of its run, and one more for a rejection or a case given up after two |
| Decisions.RegisteredTicketIsOwn | serverless/services/automation-resources.js:135-250 | whatever is registered names the ticket the run was started for and the action of its branch |
| Decisions.ExecutedPlanWasSelected | serverless/services/automation-resources.js:155-181 | the plan that is executed is the one its approval selected |
| Workflow.FailuresCanBeRegistered | serverless/services/automation-resources.js:235-250 | the data a failed or rejected case needs is always there |
| Workflow.TimeoutIsNeverRegistered | serverless/services/automation-resources.js:165-258 | as written, a timeout always aborts and its end state is not reached |
| Workflow.TimeoutRegistersExactly | serverless/services/automation-resources.js:165-258 | it would be registered exactly if the error were put anywhere but over the state |
| Workflow.CompleteStateIsReady | serverless/services/automation-resources.js:135-226 | each state that writes the loop's data writes all of it |
| Coordination.CoordinationTime | mcp/scripts/l6_finalize.py:434-448 | exactly the part of the span that no phase inside it covers; with the covered part it makes the whole span |
| Coordination.OrderDoesNotMatter | mcp/scripts/l6_finalize.py:441-448 | neither the order of the phases nor repetitions matter |
| Coordination.Distribution | mcp/scripts/l6_finalize.py:58-63 | extremes, the median, and the least value that 95 in 100 do not exceed; nothing for an empty list or a negative value |
| Pagination.ArrangedIsSelectedInOrder | mcp/xoc_mcp_lab/wiring.py:43-45 | exactly the matching rows, each as often as it was there, in the requested order |
| Pagination.SelectedExactly | mcp/xoc_mcp_lab/wiring.py:43-43 | exactly the rows whose field has the value, in the order of the table |
| Pagination.TextOrderExactly | mcp/xoc_mcp_lab/wiring.py:45-45 | texts are ordered by their first difference, a prefix first |
| Pagination.ArrangedByKey | mcp/xoc_mcp_lab/wiring.py:44-45 | of two rows with different sort keys the smaller comes first, or the greater when going backwards |
| Pagination.ArrangementIsStable | mcp/xoc_mcp_lab/wiring.py:44-45 | rows with the same sort key stay in the order of the table, either way |
| Pagination.NextPage | mcp/xoc_mcp_lab/wiring.py:46-54 | the resume key continues right after the rows read so far, with as many as fit a page; a count query counts them without handing them over |
| Pagination.Owner.Read | mcp/xoc_mcp_lab/wiring.py:16-20 | every read is counted; past the budget, or past the deadline by the clock it reads, it fails |
| Pagination.Owner.RunQuery | mcp/xoc_mcp_lab/wiring.py:28-54 | one read, then one page of the selected rows |
| Pagination.Owner.FetchAll | mcp/xoc_mcp_lab/wiring.py:28-54 | following the resume key, the counts add up to the number of selected rows and, unless only counts were asked for, every selected row comes back once in order; in time, exactly if the pages fit the read budget |
| Pagination.Owner.StartCall | mcp/xoc_mcp_lab/wiring.py:67-69 | a call starts with a fresh budget and a deadline five seconds ahead |
| Merge.DeepMerge | experiments/report_docx_poc/generate_report_poc.py:240-248 | the merge by field, null giving way |
| Merge.NothingIsDropped | experiments/report_docx_poc/generate_report_poc.py:240-248 | every default and every value of the override that is not null is kept |
| Merge.MergeIsStable | experiments/report_docx_poc/generate_report_poc.py:240-248 | merged data already holds all defaults |
| Merge.MergeAgain | experiments/report_docx_poc/generate_report_poc.py:240-248 | merging the same override again changes nothing |
| Merge.DataFile.Load | experiments/report_docx_poc/generate_report_poc.py:262-267 | the file is rewritten only if it lacks something, and is stable afterwards |
| Merge.WrittenOnceAtMost | experiments/report_docx_poc/generate_report_poc.py:262-267 | however often it is loaded, the file is written at most once |

## Left out

- Fault injection: fault profiles, `test` actions, `send_test_message`, `pause_lease` and the test recovery. A child that crashes, stalls or ignores commands is nondeterminism instead.
- Sockets, process tables, signals, `asyncio`, executors and futures: partial transfer counts, "has exited", "is done" and the clock are left open.
- JSON and the field tables of `validate_message`: the channel is proved for any format that obeys the contract of `Control.Lawful`; `Wire.dfy` is one such format, for commands only.
- Numbers that are not finite: stamps and leases are integers, so those branches have no counterpart.
- A job's `generation`, provider stamps and read counts; a heartbeat says in one flag whether all its jobs name its generation. An absent occupancy counts as 0, a gate state UNKNOWN in a heartbeat counts as not open.
- The records emitted only for measurement: phase and snapshot events, `fault_at`, observer diagnostics, `completed_metadata`.
- Supervisor.Supervisor.SendCommand: the channel it sends over is any channel that accepts with the next number, refuses or closes; it is not the `Control` object. A command is stamped with the clock reading its caller made just before.
- Supervisor.Supervisor.Run: the loop is bounded by a number of passes, because a loop that need not end cannot be stated; every bound is allowed.
- Supervisor.Supervisor.Terminate: signals are not modelled, only waiting for the exit.
- Supervisor.Supervisor.ReceiveParent: a parent channel that is closed or broken is one more way to be asked for a stop or a failure. A signal handler may set the stop flag at any instruction; the model sees it at the next look at the parent. A stop set between the check and the sending of a lease counts as seen after that lease.
- Protocol.NoRenewalAfterStop: the same; the stop is the logged one.
- Protocol.Extend: the log is unbounded; the ring of 2048 entries that the source keeps of it, with its count of dropped ones, and its copy to the parent are outside.
- Supervisor.Supervisor.Retire: the budgets of its phases are judged inside it; its contract says what they decide, not their lengths.
- Supervisor.Supervisor.Start: on a platform without processes nothing is ever spawned, so there a supervisor in generation 0 is asked for.
- System.ServesAfterStop: the startup budgets, which bound how late the open command can be, are the supervisor's (`Supervisor.Phase`) and not part of an accepted log.
- Wire.FieldsRoundTrip: decimal fields closed by commas stand in for JSON.
- Wire.MessageRoundTrip: the same, for the supervisor's six commands only.
- Wire.FormatIsLawful: it shows that the contract can be met, not that JSON meets it.
- Wire.FormatAcceptsALease: one small command, so that the contract is not met by refusing everything.
- Pool.BoundedPool.CurrentSnapshot: the counters that the source also copies out (active, maximum, permits, pending futures, reconciled, reason) are read directly where they are used.
- Gate.AdmissionGate.CloseDoor: a call reads the clock once; the source may read it a second time for `closed_at`.
- Pool.BoundedPool.Run: the await itself is outside; what a waiter does to the pool is `MarkAbandoned`.
- Server.ControlLoop.Pass: other threads act between its calls only in `System.dfy`, not inside one pass of the class; `Serving.ActIsAStep` allows anything between two acts. The switch that suppresses close answers is fault injection.
- Serving.PassGoesOn: that the messages received are commands sent, in their order, is asked for; over channels it is `Control.FramingRefinement`.
- Server.ControlLoop.FinishProbe: the requests the probe makes and the checks of their answers are one flag.
- Rollback.BuildRollbackPlan: the fingerprint, the approval requirement and steps that are not objects are outside; risk levels are a parameter.
- Workflow: retries, IAM and resource declarations; `States.Format` is its argument; a parameter path that is missing is an error that a Catch of all errors takes.
- Coordination.Distribution: floating-point time is counted in whole ticks.
- Pagination.Owner.RunQuery: the fixture's checks of table, index and operator names; a negative limit.
- Pagination.Owner.FetchAll: the loop that follows the resume key is the callers', written out once here; a limit of 0, with which `RunQuery` fails on any row left, is not followed.
- Claims: the campaign records, the pushes and the queue; a message that is delivered again is another worker's attempt. `ValidationError` and other exceptions lead to the same failing update.
- Merge: reading and writing JSON text; the order of fields.
- The earlier lab levels (L1, L3, L4), the acceptance and benchmark scripts, report generation, deployment, and the tool gateway add no protocol steps.
