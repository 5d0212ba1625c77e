# Pool manager: model and proofs

The pool manager serves an OpenAI-compatible gateway over a pool of Codex accounts.  Two replicas ("slots" `a` and
`b`) run behind HAProxy; a deployment controller moves traffic between them, a leader lock in Redis decides which one
runs the background jobs, Redis counters limit concurrency and rate, and runners supervise one child process per
account.  This project models those mechanisms in Dafny and proves what they promise, over every run.

Protocols are written as a *step relation* (`Step`, `Run`): a total function on labelled actions.  An action that is not
enabled leaves the state alone, so every list of actions is a run and theorems quantify over all of them.  Where the
code changes state step by step, an *imperative class* stands beside the relation, and is tied to it in one of two ways:

- `Deployment.Controller`, `ControlServer.ControlService`, `BackgroundLoop.Replica`, `InflightCounters.Cache` and
  `RateCounters.Cache` keep a ghost log with `View() == Run(origin, log)`, while everybody else moves between their
  writes, so that a theorem about runs from `origin` speaks about the object at every moment.
- `Supervisor.Supervisor` and `DailySync.Store` have methods whose new state is stated to be one step from the old one.

The remaining classes (`ControlServer.Lease`, `ControlServer.FileLock`, `Observer.Observer`) have contracts of their own.

| file | what it models |
|---|---|
| `Release.dfy`, `ReleaseProofs.dfy`, `ReleaseTheorems.dfy` | the journaled release machine of `deploy/abctl.py`, its inductive invariant, its guarantees |
| `Controller.dfy` | `Controller` as a class: every write a step of the release machine, with crashes and the world in between |
| `ControlService.dfy` | the operation lock, its lease, and the control service that passes it to a worker thread |
| `Leader.dfy`, `BackgroundLoop.dfy` | the leader lock with expiry and lost replies; one replica's background loop |
| `Admission.dfy`, `RateGate.dfy`, `Cache.dfy` | in-flight counters, the per-minute rate gate, and the cache calls that work on them |
| `Gateway.dfy` | key limits, account selection, the retry loop, and what a request leaves taken |
| `UsageScan.dfy`, `Observer.dfy` | the scan for the usage object; the stream observer that settles a request |
| `RequestLife.dfy` | one request from its first counter to its last |
| `Supervisor.dfy` | process generations, reapers, and the supervisor object |
| `Reconcile.dfy` | the reconciliation half of a background tick |
| `Official.dfy`, `OfficialSplits.dfy` | splitting official credits by model and by client |
| `DailySync.dfy`, `Health.dfy` | which days are synced and kept; the blocks of the health bar |
| `Common.dfy` | shared vocabulary |

## What is assumed

- Release: a file write is atomic (`durable_write` renames a finished file); answers from HAProxy, Docker and Redis are
  truthful; the key `pm:deploy:active` is not lost.  A run begins at rest: either nothing is recorded yet, or the three
  records agree, the standby has no connections, and `images.json` names for both slots the images they run.
  `docker compose up --force-recreate` is a stop followed by a start, and a crash may fall between them.
- Leader: Redis executes each command at one moment; the reply comes later or is lost, and a command may never arrive, or
  arrive after its sender has given up on it.
- Admission: the caps stay constant during a run.  An INCR and its EXPIRE are one step.  Lost commands, lost replies and
  requests that are dropped without giving their slot back are part of the model; a command that is executed after its
  sender has given up is a slow release there (DECR, DEL) or an acquire that leaks (INCR).
- Rate gate: replicas share a clock.
- Supervision: killing a child succeeds; asking for its exit status succeeds.
- Reconciliation: the database calls of a tick succeed; each account's instance runs only on its own runner.
- Floating point is modelled by `real`; JavaScript's and Rust's integers by `int` (no counter comes near their limits).

## Where the code and its own words differ

- A comment in `src/cache.rs:32-33` says that a crashed replica cannot pin a slot forever.  The expiry is renewed by every
  further acquire: `Admission.LeakForgottenIffQuiet` says that a leaked slot is forgotten if and only if the account goes
  without an acquire for longer than the TTL, and `Admission.CrashCanPinForEver` keeps an account full for any number of
  hours with one refused request an hour.
- Releasing a slot is DECR followed by a separate DEL.  A DEL that comes after somebody else's INCR forgets that
  request: `Admission.LateDelExceedsCap` shows two requests on an account that allows one.
  `Admission.ExactIffCountsRight` says exactly when the counters are right.
- A finished request can leave a slot behind: `Gateway.LeavesASlotIff` says exactly when (a lost reply to its INCR, a DECR
  that does not arrive, a missing runner), and `Gateway.UndercountsIff` when it takes another request's count down;
  `Gateway.LostReplyStrands` and `Gateway.LostIncrementUndercounts` are an input for each.
- The rate gate counts a hit in the minute of its clock reading, whose counter may be gone when the hit comes more than 120
  seconds after that minute began: `RateGate.LateHitPassesBesides` passes two requests at a limit of one.
- Giving the leader lock back is not tied to one tenure: `Leader.StaleReleaseOverlaps` lets a release that was given up on
  take the lock from under a later tick of its sender (`Leader.StaleReleaseHappens` is a run that leads there).
- "No stream is cut" does not extend to the very first deploy: HAProxy already sends clients to slot `a`, which `init`
  then recreates (`ReleaseTheorems.InitCanCutAStream`).  `ReleaseTheorems.RecreationHitsIdleSlot` says that this is the
  only exception.
- A start can be refused although no operation runs: `OperationExclusion.RefusedWithoutABody` says exactly when.
- The row keys of the official split can collide when a speed contains a space: `Official.KeyTellsIff` says exactly when a
  key determines its row, and `OfficialSplits.AggregateModels` where the turns go in any case.

## Model

| member | source | states |
|---|---|---|
| ReleaseTheorems.OnlyRecreationCuts | deploy/abctl.py:599-647 | of all steps of all participants only the recreation of a container with connections cuts any, and it cuts exactly those |
| Release.RunAppend | deploy/abctl.py:726-768 | running one list of actions and then another is running their concatenation |
| Release.RunSnoc | deploy/abctl.py:726-768 | a run followed by one more action is one more step from its last state |
| ReleaseProofs.ReplaySnoc | deploy/abctl.py:445-448 | one more finished operation applies its effect to what the earlier ones led to |
| ReleaseProofs.PrepareKeeps | deploy/abctl.py:599-608 | the lines of `prepare` keep the invariant that ties stage, records, images and connections together |
| ReleaseProofs.HandoffKeeps | deploy/abctl.py:610-622 | so do the lines that hand over the background jobs |
| ReleaseProofs.TrafficSwitchKeeps | deploy/abctl.py:622-636 | so do the file, the runtime map and the drain of the old slot |
| ReleaseProofs.RetireKeeps | deploy/abctl.py:638-647 | so do the lines that rebuild the old slot |
| ReleaseProofs.FinishKeeps | deploy/abctl.py:445-448 | clearing the journal leaves a resting configuration: what the finished operations lead to |
| ReleaseProofs.ExecKeeps | deploy/abctl.py:726-768 | every line of an operation body keeps the invariant |
| ReleaseProofs.OperatorKeeps | deploy/abctl.py:650-724 | starting, resuming, rolling the runner and dying at any line keep it too |
| ReleaseProofs.TrafficKeeps | docker/haproxy.cfg:50 | clients that connect to the mapped slot (slot `a` without a map) and streams that end keep it |
| ReleaseProofs.WorldKeeps | deploy/abctl.py:466-484 | HAProxy restarts from the file, changes of the leader lock and of health keep it |
| ReleaseProofs.StepKeeps | deploy/abctl.py:599-768 | no step of any kind breaks the invariant |
| ReleaseProofs.Always | deploy/abctl.py:599-768 | the invariant holds in every state of every run |
| ReleaseTheorems.RecreationHitsIdleSlot | deploy/abctl.py:599-647 | a forced recreation hits the slot that has the traffic if and only if it is the first half of `init`; every other one hits a slot without connections |
| ReleaseTheorems.NoLiveStreamIsCut | deploy/abctl.py:599-647 | from any reachable moment at which an active slot is recorded, also inside the first deploy, no run of deploys, switches, rollbacks, resumes, crashes, runner rolls and HAProxy restarts cuts a connection |
| ReleaseTheorems.InitCanCutAStream | deploy/abctl.py:667-670 | the exception is real: a client connected before the first deploy is cut by it |
| ReleaseTheorems.RecordsMoveInOrder | deploy/abctl.py:610-627 | in every run, from a fresh install on, (Redis, file, runtime) only takes the values on the way from one slot to the other, or to the first one, and agrees between operations |
| ReleaseTheorems.ExecMovesForward | deploy/abctl.py:610-627 | a line of the body moves at most one record, and never back |
| ReleaseTheorems.OthersMoveForward | deploy/abctl.py:466-484 | neither does anything else: an HAProxy restart only catches up with the file |
| ReleaseTheorems.RecordsNeverGoBack | deploy/abctl.py:753-761 | in no run, from a fresh install on, does a step take a record back or move two, and an operation finishes only when all three have moved |
| ReleaseTheorems.RestartNeverMovesTrafficBack | docker/haproxy.cfg:50 | an HAProxy restart at any point leaves traffic where it is or moves it on to the candidate |
| ReleaseTheorems.AtRestAfterFinishedOperations | deploy/abctl.py:445-448 | at rest, the deployment is exactly what its finished operations would leave without any crash |
| ReleaseTheorems.TracksAlways | deploy/abctl.py:421-438 | through any steps the journaled operation keeps being the one that was accepted, until it is the one that finished |
| ReleaseTheorems.AcceptedOperationServes | deploy/abctl.py:655-692 | an accepted operation leads to a recorded active slot |
| ReleaseTheorems.FinishedOperationHasItsEffect | deploy/abctl.py:719-768 | an operation that finishes has the effect of its request, however often it was interrupted |
| ReleaseTheorems.CrashResumeEquivalence | deploy/abctl.py:719-768 | two runs that finish the same operation agree on journal, records, slot images and running images, whatever crashes and resumes they contain |
| ReleaseTheorems.StraightRunFinishes | deploy/abctl.py:726-768 | from any line of any reachable operation a quiet world and no crash lead to its end |
| ReleaseTheorems.QuietResumeFinishes | deploy/abctl.py:719-724 | after a crash in a quiet world `resume` and its lines bring the journaled operation to its end |
| ReleaseTheorems.ResumeCanFinish | deploy/abctl.py:719-724 | from any crash point of any run, whatever streams, leader and health are like there, the end of the open streams, one `resume` and its lines bring the journaled operation to its end, and it is that operation which finishes; no further crash, client or start is needed |
| ReleaseTheorems.DeployEffect | deploy/abctl.py:655-670 | a finished deploy serves the new image from the other slot and leaves the old image on the standby; a first deploy puts it into both slots |
| ReleaseTheorems.SwitchEffect | deploy/abctl.py:672-692 | a finished switch moves all three records and no image |
| ReleaseTheorems.ResumeEffect | deploy/abctl.py:719-724 | a finished resume leaves what the journal it started from says |
| ReleaseTheorems.DeployKeepsRollbackPoint | deploy/abctl.py:638-665 | over any run that finishes one deploy the standby holds exactly the image that served before it |
| ReleaseTheorems.SwitchMovesOnlyTraffic | deploy/abctl.py:672-692 | over any run that finishes one switch or rollback both images stay and the traffic is on the other slot |
| ReleaseTheorems.TwoRollbacksRestore | deploy/abctl.py:694-698 | two rollbacks in a row restore the active slot and the images |
| Deployment.Controller.Journal | deploy/abctl.py:427-438 | writes the next stage and nothing else, or dies before it |
| Deployment.Controller.SetActiveRedis | deploy/abctl.py:513-516 | the write of the Redis key is the next step of the run, or the body dies before it |
| Deployment.Controller.PersistActive | deploy/abctl.py:418-419 | the same for the map file |
| Deployment.Controller.HapSetMap | deploy/abctl.py:466-471 | the same for HAProxy's map in memory |
| Deployment.Controller.WriteImages | deploy/abctl.py:399-404 | the same for `images.json` |
| Deployment.Controller.Kill | deploy/abctl.py:605-606 | recreating a container cuts its connections, and is only ever done to the slot the stage allows |
| Deployment.Controller.Recreate | deploy/abctl.py:605-606 | stop and start are two steps, with a possible crash in between |
| Deployment.Controller.Wait | deploy/abctl.py:576-586 | polling passes only in a moment in which its condition holds; a timeout ends the body where it stands |
| Deployment.Controller.Prepare | deploy/abctl.py:599-608 | from the journal entry to a ready candidate, or a crash inside the same journaled job |
| Deployment.Controller.Handoff | deploy/abctl.py:610-627 | background jobs, traffic and drain, in this order, or a crash inside the same job |
| Deployment.Controller.MoveTraffic | deploy/abctl.py:622-627 | file before runtime map before drain |
| Deployment.Controller.NothingCutSince | deploy/abctl.py:599-647 | the controller has cut nothing since any earlier moment at which an active slot was recorded |
| Deployment.Controller.RedoCutover | deploy/abctl.py:753-761 | redoing a cutover starts over from the journal and the Redis key |
| Deployment.Controller.Retire | deploy/abctl.py:638-647 | the old slot is rebuilt from the journaled image |
| Deployment.Controller.FinishOperation | deploy/abctl.py:445-448 | clears the journal and adds exactly this operation to the finished ones |
| Deployment.Controller.RunFrom | deploy/abctl.py:726-768 | from the journaled stage on the body finishes its own job or leaves it journaled |
| Deployment.Controller.DeployImage | deploy/abctl.py:655-670 | refused if and only if an operation is unfinished; when done, all records name the other slot, it runs the new image and the standby the old one; no connection is cut if an active slot was recorded |
| Deployment.Controller.SwitchTo | deploy/abctl.py:672-692 | refused if and only if busy, unexpected, not the other slot, not ready or not empty; when done, only the records have moved |
| Deployment.Controller.RollBack | deploy/abctl.py:694-698 | switches to whichever slot is not active, images untouched |
| Deployment.Controller.ResumeOperation | deploy/abctl.py:719-724 | refused if and only if nothing is unfinished; when done, records, images and containers are what the journal said |
| Deployment.Controller.RollRunner | deploy/abctl.py:700-717 | replaces the runner's image and leaves a pending slot operation, the records and both slots alone |
| OperationExclusion.OneBodyAtATime | deploy/abctl.py:151-186 | in every interleaving at most one request holds the lock, and it is the lock's owner |
| OperationExclusion.LeaseIsReleasedOnce | deploy/control_server.py:93-105 | the lease is held from acceptance to the end and released exactly once, on every path |
| OperationExclusion.AcceptedOperationBeginsIdle | deploy/control_server.py:96-98 | a deploy, switch or rollback accepted over HTTP begins from stage idle; one from the command line begins if and only if the stage is idle |
| OperationExclusion.RefusedWithoutABody | deploy/abctl.py:189-194 | in every run, while no body is accepted or running, a request is refused the lock if and only if a probe or another request holds it before its decision |
| OperationExclusion.ProbesAndRequestsRefuse | deploy/control_server.py:93-98 | requests and probes of every kind do refuse each other in this way |
| ControlServer.Lease.Enter | deploy/abctl.py:158-177 | takes the lock if and only if it is free, and never waits |
| ControlServer.Lease.Exit | deploy/abctl.py:179-186 | releases what it took, and a second exit releases nothing |
| ControlServer.ControlService.TakeLock | deploy/abctl.py:158-177 | a request gets the lease if and only if the lock is free at that moment, and is over otherwise |
| ControlServer.ControlService.Decide | deploy/control_server.py:95-105 | under the lock it is accepted if and only if the journal allows its action and the job file and the thread come up; otherwise the lease is given back |
| ControlServer.ControlService.Start | deploy/control_server.py:71-105 | with everybody else moving between its checks, a request is accepted with its lease open and, for a deploy, switch or rollback, an idle journal, or is over having released what it took |
| ControlServer.ControlService.HolderIsAlone | deploy/control_server.py:93-98 | whoever holds the lease is the only one, and the journal check it made stays true |
| ControlServer.ControlService.RunBody | deploy/control_server.py:110-119 | runs the controller's operation of that name; a deploy is refused if and only if the journal is not idle, a resume if and only if it is |
| ControlServer.ControlService.RunJob | deploy/control_server.py:107-128 | the worker drives the controller, an accepted deploy is never refused by its journal check, and whatever becomes of the body the lease was taken once and released once |
| Leader.TickersHoldLock | src/cache.rs:135-160 | as long as ticks are in time, whoever ticks holds the lock for a whole lifetime from its acquisition, and so does whoever will hear in time that it won |
| Leader.TicksNeverOverlap | src/jobs.rs:31-62 | as long as every tick ends within one lock lifetime of its acquisition and no release comes as late as a later tenure, no two replicas tick at the same moment of any run, whenever replies and late commands arrive |
| Leader.FreshStart | src/jobs.rs:23-64 | a system without replicas, whatever Redis holds, is a start from which this applies |
| Leader.LateTickOverlaps | src/jobs.rs:31-62 | the limit on ticks is needed, for every lifetime |
| Leader.StaleReleaseOverlaps | src/cache.rs:175-186 | so is the limit on releases: from every state with a stale one pending behind a tick, another replica can tick beside it |
| Leader.StaleReleaseHappens | src/jobs.rs:31-62 | and a run leads to such a state |
| Leader.WindowShrinks | src/jobs.rs:16-21 | while the marker names the other slot, nobody of the old slot starts to be able to get the lock or to tick, and each success uses one up |
| Leader.EveryTickIsCounted | src/jobs.rs:31-62 | the count of ticks misses none: whoever ticks after a run and did not before has been counted for its slot |
| Leader.BoundedHandoff | src/jobs.rs:31-62 | the old slot's further acquisitions are at most its replicas between check and lock command and its commands nobody waits for any more, its further ticks at most those replicas and the ones about to hear that they won |
| Leader.AtMostOneMoreTick | src/jobs.rs:31-62 | with one process per slot at most one more tick, none after it, and none at all if the process was neither between check and command nor about to hear that it won |
| Leader.WindowIsReal | src/jobs.rs:31-62 | conversely, from every state with a replica of the old slot past its check or about to hear that it won, some run that keeps the marker away lets it tick |
| Leader.OldSlotCanAcquireAfterQuiesce | deploy/abctl.py:615-620 | the controller can see the lock free in such a state |
| BackgroundLoop.Replica.SlotIsActive | src/jobs.rs:16-21 | a missing or unreadable marker counts as ours |
| BackgroundLoop.Replica.LeaderRelease | src/cache.rs:175-186 | after it the replica does not lead, whether Redis answered or not |
| BackgroundLoop.Replica.SendGiveBack | src/cache.rs:175-186 | the script removes the own lock and nobody else's |
| BackgroundLoop.Replica.LeaderAcquire | src/cache.rs:135-160 | it leads only after one of the two commands was answered with success; an error counts as not leading |
| BackgroundLoop.Replica.SendSet | src/cache.rs:139-149 | SET NX PX: wins only an absent key |
| BackgroundLoop.Replica.SendExtend | src/cache.rs:150-159 | extends only a live lock of its own |
| BackgroundLoop.Replica.TicksAlone | src/jobs.rs:31-62 | while all ticks and releases are in time, a replica that ticks holds the live lock and no peer ticks |
| BackgroundLoop.Replica.Loop | src/jobs.rs:23-64 | the loop takes steps of the leader machine only, at most one tick a round, whatever moves in between |
| BackgroundLoop.Replica.OthersDoNotSeeUs | src/jobs.rs:23-64 | a step of another replica does not depend on this one's private state |
| Admission.StepTakers | src/cache.rs:34-58 | how each command moves the set of requests that have taken a slot |
| Admission.StepCount | src/cache.rs:34-58 | how each command moves the counter |
| Admission.NoPhantomLoad | src/cache.rs:34-64 | with DECR and DEL apart, expiring keys, missed increments and leaks, the load read never exceeds the slots taken; an idle account reads 0 |
| Admission.ExactIffCountsRight | src/cache.rs:50-58 | all along a run every counter equals the slots taken if and only if no DEL or expiry hits a counter that is not zero and no pinned request goes on without its increment |
| Admission.WholeReleasesAreExact | src/cache.rs:34-58 | with DECR and DEL as one step, no expiry and no missed increment the accounting is exact |
| Admission.CapsHold | src/gateway.rs:188-210 | while the count is exact, admitted unpinned requests stay within the cap |
| Admission.UnpinnedLeasesWithinCap | src/gateway.rs:143-217 | in every run that counts right in this sense, unpinned leases never exceed `max_concurrency`, although pinned ones bypass it |
| Admission.LateDelExceedsCap | src/cache.rs:53-56 | a DEL between another request's INCR and its end lets an account of capacity one serve two |
| Admission.LeakForgottenIffQuiet | src/cache.rs:32-48 | a leaked slot stays counted if and only if every stretch without an acquire of its account is at most the TTL; after a longer one it is forgotten for good |
| Admission.LeakIsPinned | src/cache.rs:32-48 | in every run that counts right a leaked slot is counted, so the previous statement decides what becomes of it |
| Admission.CrashCanPinForEver | src/cache.rs:32-48 | one leaked slot and one refused request an hour keep an account of capacity one full for any number of hours |
| InflightCounters.Cache.InflightAcquire | src/cache.rs:34-48 | the answer is the counter right after the own increment; an error leaves at most a leaked slot |
| InflightCounters.Cache.AcquirePinned | src/gateway.rs:146-151 | a pinned request holds its slot whatever the counter says, and even if the increment never arrived |
| InflightCounters.Cache.InflightRelease | src/cache.rs:50-58 | gives the slot back at most once, with others moving between DECR and DEL and either command failing |
| InflightCounters.Cache.InflightGet | src/cache.rs:60-64 | reads the counter, absent and negative ones as 0, and never more than the slots taken |
| InflightCounters.Cache.Probe | src/gateway.rs:188-204 | an unpinned request keeps its slot only if the answer is within the cap |
| RateGate.MinuteBound | src/cache.rs:69-79 | under any interleaving at most `rpm_limit` requests pass the gate of one calendar minute, besides those whose hit came back as an error or more than 120 seconds after the minute began |
| RateGate.WindowSplits | src/cache.rs:69-79 | any 60 seconds fall into two calendar minutes |
| RateGate.SlidingBound | src/gateway.rs:182-187 | at most twice `rpm_limit` in any 60 seconds, besides those of the two minutes |
| RateGate.PunctualNothingWaved | src/gateway.rs:182-187 | when every hit is answered and in time nothing passes besides, so the bounds are the limit and twice the limit |
| RateGate.SixtyOneSecondsAreInTime | src/cache.rs:69-79 | a hit within 61 seconds of its clock reading is in time, one after 62 may not be |
| RateGate.LateHitPassesBesides | src/cache.rs:69-79 | and then a limit of one passes two requests of the same minute |
| RateGate.SlidingBoundIsReached | src/cache.rs:69-79 | and that bound is reached |
| RateCounters.Cache.RateHit | src/cache.rs:69-79 | one hit, however late, counts in the minute whose clock reading it made and passes if and only if the answer is within the limit; an error passes like a count of zero |
| Gateway.VisitedOnes | src/gateway.rs:182-210 | the accounts an attempt comes to are those all of whose less loaded rivals were refused |
| Gateway.VisitLeaves | src/gateway.rs:188-204 | a visit adds to what the attempt leaves taken exactly when it strands a slot |
| Gateway.InsertByLoad | src/gateway.rs:169-175 | inserting keeps the order by load, equal loads in snapshot order |
| Gateway.Candidates | src/gateway.rs:169-175 | exactly the eligible accounts, least loaded first, ties in snapshot order |
| Gateway.AcquireUnpinned | src/gateway.rs:168-217 | takes the first account in load order that no gate refused; 429 if and only if every eligible one was refused; leaves taken exactly what its visits strand, and the lease |
| Gateway.FindAccount | src/gateway.rs:144-145 | finds an account of that id if there is one |
| Gateway.AcquirePinned | src/gateway.rs:143-157 | goes to the pinned account if it is eligible, whatever becomes of the increment, and conflicts otherwise |
| Gateway.AcquireAccount | src/gateway.rs:118-218 | a pinned request only ever gets its pinned account, or a conflict; a request without accounting takes no slot; every slot left is accounted for |
| Gateway.OneMoreLeastLoaded | src/gateway.rs:317-376 | each further send goes to the least loaded account left |
| Gateway.TryOnce | src/gateway.rs:318-353 | an attempt goes to an account that was not tried, the pinned one if there is one, and sends its slot back if the send fails |
| Gateway.OneMoreSend | src/gateway.rs:338-375 | after a send the loop is over, with the response or an error, or knows as much as before |
| Gateway.Forward | src/gateway.rs:317-376 | at most 3 sends to distinct accounts, retried only after a retryable failure and never when pinned; its calls add up to what its attempts leave for good and what a streaming response still owes; giving up records once |
| Gateway.LeavesASlotIff | src/gateway.rs:118-376 | a request leaves a slot of an account taken if and only if in one of its attempts the INCR was executed and its reply lost, a DECR did not arrive, or the runner was missing |
| Gateway.UndercountsIff | src/gateway.rs:143-157 | it takes another request's count down if and only if it was pinned, its INCR never arrived and its DECR did |
| Gateway.LostReplyStrands | src/gateway.rs:188-208 | a lost reply to an INCR does leave a slot, with the runner there and nothing else failing |
| Gateway.LostIncrementUndercounts | src/gateway.rs:146-151 | a lost INCR of a pinned request does take one off the count |
| Gateway.Proxy | src/gateway.rs:235-376 | says exactly when a request is refused for its key's rate, its key's capacity, an unreachable Redis or its size; a refused one sends nothing; the key's slot stays taken if and only if a reply or the release was lost |
| Gateway.StickyAccount | src/gateway.rs:86-109 | the first lookup that answers decides; failed lookups count as no answer |
| UsageScan.LastUpToIsLast | src/gateway.rs:652-655 | what is found is an occurrence of the key, and none is later |
| UsageScan.CloseFromCloses | src/gateway.rs:659-676 | brace counting stops at the brace that closes the first one, and fails only if it never closes |
| UsageScan.FirstObjectMeaning | src/gateway.rs:656-676 | behind a position, the object found is the shortest balanced text at the first brace |
| UsageScan.UsageObjectMeaning | src/gateway.rs:652-690 | the object found starts at the first brace behind the last key and is the shortest balanced text there; nothing is found only without key, brace or closing |
| UsageScan.FindLastKey | src/gateway.rs:652-655 | finds the last occurrence of the key |
| UsageScan.FindObject | src/gateway.rs:656-676 | finds the first object of a text |
| UsageScan.ExtractUsage | src/gateway.rs:652-690 | the scan finds exactly the usage object |
| UsageScan.TailLastOccurrence | src/gateway.rs:652-655 | the last key of a tail is the last key of the body if it starts there, else there is none |
| UsageScan.TailIsEnough | src/gateway.rs:652-690 | dropping a prefix keeps the usage object if and only if there is none or the last key starts behind the cut |
| Observer.Observer.Keep | src/gateway.rs:491-506 | head is the first 16 KiB and tail the last 64 KiB of everything seen so far |
| Observer.Observer.PollNext | src/gateway.rs:488-516 | chunks are kept, the end settles, errors and pending polls change nothing |
| Observer.Observer.Finish | src/gateway.rs:519-563 | settles once: key slot, account slot, record; a second call does nothing |
| Observer.Observer.Drop | src/gateway.rs:566-575 | a body that is dropped early settles as a disconnect, a finished one not again |
| Observer.TailUsageIsBodyUsage | src/gateway.rs:652-690 | the usage of the kept tail is that of the whole body if and only if there is none or its last key lies in the last 64 KiB |
| Observer.ServeStream | src/gateway.rs:488-575 | for every sequence of events and every point of leaving: one record, each slot given back once, and ends that depend on the body alone, not on its chunks |
| RequestLife.FinishedRequest | src/gateway.rs:220-575 | the calls of a finished request leave an account's counter up or down exactly when its attempts say so |
| RequestLife.Serve | src/gateway.rs:220-575 | a whole request, streamed to the end or left: it strands a slot of an account or of its key, or undercounts, exactly in the cases named above, and is recorded once if it streamed or became unreachable and not otherwise |
| RequestLife.CleanRequestsLeaveNothing | src/gateway.rs:220-575 | when every command is answered and every runner known it gives back everything |
| SupervisorModel.RemoveKeeps | src/runner/supervisor.rs:211-224 | removing an entry kills its child and keeps the invariant |
| SupervisorModel.SpawnKeeps | src/runner/supervisor.rs:140-180 | a new generation keeps the invariant |
| SupervisorModel.ReapKeeps | src/runner/supervisor.rs:183-209 | so does a poll of any reaper |
| SupervisorModel.ExitKeeps | src/runner/supervisor.rs:246-254 | so do process exits and a shutdown |
| SupervisorModel.StepKeeps | src/runner/supervisor.rs:78-224 | no operation breaks the invariant that ties map, children, exit codes and reapers together |
| SupervisorModel.Always | src/runner/supervisor.rs:78-224 | it holds after every sequence of operations |
| SupervisorModel.OneLiveChild | src/runner/supervisor.rs:78-180 | each id has at most one live child, and it is the one in the map |
| SupervisorModel.StartSpawnsOnce | src/runner/supervisor.rs:78-180 | a start spawns if and only if the id is safe and not running; a repeated start changes nothing |
| SupervisorModel.StopLeavesNoChild | src/runner/supervisor.rs:211-224 | after a stop, or a start that could not spawn, the id has no live child |
| SupervisorModel.StaleReaperIsHarmless | src/runner/supervisor.rs:183-209 | a reaper of an earlier generation changes no exit code and ends; a current one changes only its own |
| SupervisorModel.ReportsAreTrue | src/runner/supervisor.rs:61-76 | a reported exit code is the child's own, and a dead child not yet reported will be by its reaper's next poll |
| Supervisor.Supervisor.Start | src/runner/supervisor.rs:78-180 | a start is that step of the model; it answers if and only if the instance is up afterwards |
| Supervisor.Supervisor.Stop | src/runner/supervisor.rs:211-224 | a stop is that step; it says whether there was an entry |
| Supervisor.Supervisor.ReaperPoll | src/runner/supervisor.rs:183-209 | a poll is that step |
| Supervisor.Supervisor.List | src/runner/supervisor.rs:61-76 | lists exactly the entries, as running if and only if no exit code is recorded, with true codes |
| Reconcile.TickGetsCloser | src/jobs.rs:82-139 | each quiet tick brings an account exactly one tick closer to its desired state |
| Reconcile.SettlesExactlyThen | src/jobs.rs:82-139 | an account is in its desired state after `n` quiet ticks if and only if `n` reaches an explicit number, and stays there |
| Reconcile.FiveTicksSuffice | src/jobs.rs:82-139 | five ticks always suffice, and some account needs all five |
| Reconcile.TicksAreSafe | src/jobs.rs:82-139 | in any world a tick starts no disabled account, stops no enabled one, and calls none running whose probe did not answer |
| Reconcile.StartAccount | src/control.rs:16-49 | starting, error, or untouched when runner or auth.json is missing |
| Reconcile.StopAccount | src/control.rs:51-59 | the row is stopped even if the runner did not answer |
| Reconcile.Tick | src/jobs.rs:82-139 | one pass over the table gives every account its own tick |
| Reconcile.SettleAll | src/jobs.rs:82-139 | any table is in its desired state after five or more quiet ticks |
| Official.KeyTellsIff | web/src/components/pool/usage/OfficialTab.tsx:71-71 | a row key determines model and speed, among all with plain speeds, if and only if its own speed has no space |
| Official.SumOfPermutation | web/src/components/pool/usage/OfficialTab.tsx:109-109 | sorting changes no total |
| Official.FractionsAddUp | web/src/components/pool/usage/OfficialTab.tsx:72-89 | the shares of a day with a positive share add up to one, those of any other to nothing |
| Official.CreditsAddUp | web/src/components/pool/usage/OfficialTab.tsx:72-89 | the credits handed out for a day are the day's credits, or none |
| Official.GetOrAdd | web/src/components/pool/usage/OfficialTab.tsx:82-86 | one row per key, created empty on first use |
| Official.AddDay | web/src/components/pool/usage/OfficialTab.tsx:72-89 | a day adds to every key's share and credits exactly its entries' fractions, in dollars too, and no turns; it adds a row exactly for each new key |
| OfficialSplits.TurnsByModel | web/src/components/pool/usage/OfficialTab.tsx:90-96 | every model has exactly the turns of its entries |
| OfficialSplits.PlaceTurns | web/src/components/pool/usage/OfficialTab.tsx:97-109 | a model's turns go to its standard row, else its first row, else a new one, and nothing else changes |
| OfficialSplits.OthersDoNotMovePlace | web/src/components/pool/usage/OfficialTab.tsx:97-109 | where a model's turns go does not depend on which other models were placed before |
| OfficialSplits.PlaceAllTurns | web/src/components/pool/usage/OfficialTab.tsx:97-109 | every row gets exactly the turns of the models that belong into it; with plain speeds each model's turns are in rows of that model |
| OfficialSplits.Sort | web/src/components/pool/usage/OfficialTab.tsx:42-42 | sorted, the same rows, one per key if it was so |
| OfficialSplits.BreakdownTable | web/src/components/pool/usage/OfficialTab.tsx:68-111 | credits, dollars, turns and shares of the table are those of the breakdown days, and every row says what its key earned |
| OfficialSplits.AggregateModels | web/src/components/pool/usage/OfficialTab.tsx:54-112 | one row per key; credits add up to those of the days with a positive share, turns to all turns, shares to positive-share days over breakdown days and so at most 1; each row holds its key's own amounts and exactly the turns placed in it, which with plain speeds are its model's; sorted as shown |
| OfficialSplits.AggregateClients | web/src/components/pool/usage/OfficialTab.tsx:29-43 | one row per label with exactly its clients' credits, turns and tokens, and its credits in dollars; most expensive first |
| DailySync.BackfilledIffDeepSync | src/db/official.rs:252-270 | in every history `backfilled` is true if and only if one sync of 84 days succeeded and was recorded |
| DailySync.BackfilledVouches | src/db/official.rs:252-270 | so a flag that is true vouches for 84 days in a row that were asked for in one sync |
| DailySync.CoverageIffNoGapIsLeft | src/wham.rs:426-446 | whatever jobs and manual syncs follow, everything up to the last success is covered if and only if every gap was reached back over in time; the days covered are exactly those up to an explicit frontier |
| DailySync.GapsStay | src/wham.rs:426-446 | a day the rolling window has left behind is not synced by any later job |
| DailySync.CoverageIffSteady | src/wham.rs:426-446 | after a backfill the hourly jobs keep everything up to the last success covered if and only if no two successes are more than 7 days apart |
| DailySync.SteadyLeavesNoGap | src/wham.rs:426-446 | while successes are at most 7 days apart no job leaves a gap, whether or not the sync row can be read or saved |
| DailySync.FirstSuccessCoversItsWindow | src/wham.rs:426-446 | from the first success on, recorded or not, the 83 days before it and everything since are covered while the jobs stay steady |
| DailySync.Store.Upsert | src/db/official.rs:186-221 | over all answers a day shows the last totals, the last shares and the last surfaces that were not empty |
| DailySync.Store.SyncDaily | src/wham.rs:315-423 | succeeds if and only if the fetch answered and every row was stored; then every answered day has a row |
| DailySync.Store.SetDailySync | src/db/official.rs:252-270 | the flag is only ever raised |
| DailySync.Store.SyncDailyJob | src/wham.rs:426-446 | asks for 84 days until the row says backfilled, for 7 afterwards, and is that step of the history |
| DailySync.Store.SyncOnDemand | src/admin_usage.rs:237-258 | a clamped number of days, which counts as a backfill only from 84 on |
| Health.AlignMeansInside | web/src/lib/health.ts:17-17 | a bucket is aligned to a block start if and only if it lies inside that block |
| Health.TalliesAdd | web/src/lib/health.ts:15-21 | what happened in two adjacent spans is what happened in both together |
| Health.GroupByStart | web/src/lib/health.ts:14-19 | the table holds for every block start exactly what happened in that block |
| Health.PushBlocks | web/src/lib/health.ts:20-27 | the pushed blocks tile the window up to `end`, each with its own count |
| Health.BuildBlocks | web/src/lib/health.ts:12-29 | `count` adjacent blocks, `now` in the last one, each counting exactly what happened inside it, together exactly what happened in the window |

## Left out

- Docker, compose, the HAProxy socket, Redis wire calls, subprocesses and HTTP: abstract state with steps of the environment.
- Pulling and validating images, `images.env`, the error text in the journal and `history.json` with its 50 entries.
- Reads of the release records that fail or lie: a failed `redis_get` reads as no holder, which the leader step covers, and a missing backend as no connections, which the connection step covers.
- `Releases` (registry and commit metadata), the command line, `status` beyond its lock probe, and `follow`.
- Deployment.Controller.RollRunner: the wait for a healthy runner may end either way at any moment, and the image's own validation and pull are not modelled.
- BackgroundLoop.Replica.Loop: liveness is not claimed; a replica that is never scheduled never ticks.
- Leader.WindowIsReal: is about replicas before their SET or after a success; whether one before the script can still tick depends on who holds the lock.
- Leader.BoundedHandoff: needs the old slot's reads of the marker to succeed, since an unreadable marker counts as its own.
- Admission.LeakForgottenIffQuiet: is about a counter that is exact when the slot leaks, with no DEL on its way and no missed increment afterwards; those take the count down in their own way (`LateDelExceedsCap`).
- Gateway.Forward: marking an account unhealthy after a failed send is visible only as a different snapshot in the next attempt.
- Sticky keys and their expiry, admin sessions, authentication and header filters.
- UsageScan.ExtractUsage: stops at the text of the usage object; parsing its JSON and the bytes of non-ASCII text (the scan works on bytes there, on characters here) are not modelled, and the brace depth is unbounded.
- RequestLife.Serve: a handler that is dropped before its observer exists, or a replica that dies, leaks its slots; that is `Leak` in the admission model. The DEL behind a DECR is modelled there too, and not in the log of calls.
- Observer.Observer.Finish: the contents of the usage record, pricing, and storing the sticky response id are not modelled.
- Supervisor.Supervisor.Start: the prepared directory, auth.json, environment and log files are one choice between spawning and failing.
- Reconcile.Tick: synchronising auth.json, probing quotas, pruning and database failures in the middle of a tick are not modelled.
- OfficialSplits.Sort: the order of rows that compare equal is not stated.
- OfficialSplits.AggregateModels: names come trimmed and in lower case, `perUsd` is not zero, absent numbers are 0, the shown label follows from model and speed, and floats are reals.
- DailySync.CoverageIffSteady: speaks about jobs that can read their sync row; `CoverageIffNoGapIsLeft` is about all syncs, on days that do not go back.
- Health.BuildBlocks: counts and minutes are natural numbers and times are whole milliseconds; invalid dates are not modelled.
- Pricing, SQL aggregations, admin CRUD, and the user interface: easy or bound to their libraries.
