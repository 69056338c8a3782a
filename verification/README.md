# DevForge server: verified model

DevForge's server keeps its hardest logic in small state machines. Most of their steps are one guarded SQL
update, one lock operation, one file write or one DNS update, and everything else may happen in between. This
project models those machines and the algorithms beside them, and proves what they promise over whole runs and
over all inputs.

- **Deployment queue** (`DeployRows`, `CancelRegistry`, `DeployQueue`, `DeployProtocol`, `DeployRuns`, `DeployOutcome`,
  `DeployCauses`, `DeployReaper`, `DeployCases`). The table and the registry of cancel tokens are fields of a class
  whose methods write them in place. The protocol takes the same writes as atomic steps of a transition system: any
  number of tasks with a program counter, one slot per node, one start lock per project, tokens as watch channels whose
  signal is lost when nobody listens, user and tool cancels, teardowns, the reaper's test and write, claims, requeues,
  deletions and restarts, in every interleaving. A task may be dropped at any point, and the signal that a cancelling
  write owes is delivered at any later time.
- **Agent-run leases** (`AgentRuns`, `LeaseRuns`, `LeaseCases`). Claim, heartbeat, recovery, pause, resume, retry,
  cancel, finish and a routine's unguarded end under a clock that never goes back, with any number of owners. Each
  of the two updates of a recovery pass can also be a step of its own.
- **DNS failover** (`DnsFailover`, `FailoverRuns`, `FailoverJournal`, `FailoverSync`, `FailoverRestore`,
  `FailoverProcedure`, `FailoverCases`, `LeaderReturn`, `Base64`). The zone is a map from lower-case names, the journal
  a durable sequence. The node's procedure is a class; the crash-level machine splits it into single reads, records,
  saves and DNS updates, and runs any number of DNS syncs beside it, whose test and write are separate steps. A save
  may be written, fail, or leave a torn file, which reads as an empty journal; an update may take effect, be refused,
  or take effect without an answer; a crash may come between any two steps. A whole tick and a whole restore of the
  procedure are runs of the machine. The returning leader is a machine of its own, with a list of workers that each
  tick reads anew and may not get.
- **Image garbage collector** (`ImageNames`, `DockerGc`, `GcSafety`, `GcScript`).
- **Auto-deploy guard** (`AutoDeployGuard`).
- **Join limiter, rebalance counts, machine names, shell quoting** (`JoinLimiter`, `Rebalance`, `WorkerNames`,
  `ShellWords`).

Where the source changes state step by step, the model has a class or a loop proved against a function of the
old state, and the lemmas are about that function. Times are instants, real numbers of seconds. I/O, clocks,
probes, lookups, failures of an update and the placement function are parameters or arbitrary steps.

Some properties that one would expect do not always hold of the code as it stands. For each, a run or an input
that breaks it is given, and the exact condition under which it holds is proved:

- The original target of a moved name is on disk, and right. The result of a save is ignored, so a crash can lose
  the record of a name already moved (`FailoverCases.RecordLost`), a torn save loses the records of all names
  (`FailoverCases.TornSaveLoses`), and a later reading can then record the node's own target
  (`FailoverCases.OwnMoveRecorded`), though a later save may also make a failed one good
  (`FailoverCases.RecordMadeGood`). Over all runs, an entry is on disk exactly when its tick's memory was saved
  before it was lost and the file has not been torn since (`FailoverJournal.EntryDurableIff`), and it is exact exactly
  when the name pointed at the same target at its reading and at its first move (`FailoverJournal.MovedEntryExactIff`).
- The DNS loop leaves a moved name alone. It tests first and writes later, so a sync begun before the move can put the
  dead leader's target back (`FailoverCases.LateSyncUndoesMove`); the name stays exactly when no sync that had passed
  its test before the move writes it after (`FailoverSync.OverriddenNameStaysIff`).
- The returning leader remembers its home. A tick that gets no list of workers takes a worker's target for home
  (`LeaderReturn.HomeForgotten`), and then the name never returns (`LeaderReturn.NeverReturns`). A worker's target is
  remembered exactly when some tick saw the name on a worker that its list left out
  (`LeaderReturn.RemembersWorkerIff`), and otherwise the name goes home (`LeaderReturn.LeaderReturnsHomeIff`).
- A deployment that has ended stays as it ended. When the resume after a restart finds no project, its write has no
  status guard (`DeployCases.CancelledThenFailed`); apart from that write, and until it is deleted, the row is final
  (`DeployRuns.EndIsFinal`).
- A start cancels only deployments of its own environment. One whose row was deleted before it began cancels the
  project's production (`DeployCases.DeletedStartCancelsProduction`); exactly then (`DeployRuns.StartStaysInEnvironment`).
- The reaper spares a deployment that a task holds. It tests first and writes later
  (`DeployCases.ReapedWhileHeld`): exactly when a task began to listen between the two and has not stopped
  (`DeployReaper.ReapHitsLiveTaskIff`).
- A paused run is left only by a resume. A routine that was paused writes its end over the pause
  (`LeaseCases.PausedRoutineCompletes`); a routine stays stopped exactly as long as that write does not follow the
  stop (`LeaseRuns.RoutineStaysIff`), and every other run does (`LeaseRuns.StoppedUntilRestarted`).
- A run interrupted three times is given up. The two updates of a recovery pass read the clock separately, so a run
  whose lease runs out between the two readings is requeued all the same (`LeaseRuns.RequeuedPastLimit`) and claimed a
  fourth time (`LeaseCases.FourthClaim`). Over runs without a restart of it, it is claimed a fourth time exactly when
  it is claimed after such a requeue (`LeaseRuns.FourthClaimIff`).
- Twenty rows of history are enough. They can miss a failure (`AutoDeployGuard.WindowMissesFailure`); the wait is
  that of the whole history exactly when the window misses none since the newest success, or already holds six
  (`AutoDeployGuard.WindowGivesSameWait`).
- A slug is its own slug. It is not when the cut at 48 characters falls right after a dash, and only then
  (`WorkerNames.SlugUnstable`, `WorkerNames.SlugStable`).

## Model

| member | source | states |
|---|---|---|
| DeployQueue.DeployQueue.RegisterCancel | apps/server/src/deploy_queue.rs:85-92 | the new token is not cancelled, and a replaced one that somebody listens to is raised before its sender goes |
| CancelRegistry.LostSignal | apps/server/src/deploy_queue.rs:107-112 | a signal to a deployment nobody listens to leaves no trace |
| CancelRegistry.SignalAccumulates | apps/server/src/deploy_queue.rs:159-169 | signalling deployments one by one, in any order, is signalling the set |
| DeployQueue.DeployQueue.SignalEach | apps/server/src/deploy_queue.rs:159-169 | the loop signals each cancelled deployment once and ends in the registry where all are signalled |
| DeployQueue.DeployQueue.SupersedeInProgress | apps/server/src/deploy_queue.rs:125-171 | exactly the other active rows of the project and environment become cancelled, they are what is returned, and the token of each that a task listens to is raised |
| DeployQueue.DeployQueue.CancelOneDeployment | apps/server/src/deploy_queue.rs:177-215 | answers true exactly for a row in one of the five cancellable statuses, which alone is cancelled and signalled; otherwise nothing changes |
| DeployQueue.DeployQueue.MarkRunningIfActive | apps/server/src/deploy_queue.rs:403-414 | answers true exactly for an active row, which alone becomes running |
| DeployQueue.DeployQueue.FinalizeIfActive | apps/server/src/deploy_queue.rs:472-507 | answers true exactly for an active row, which alone takes the status; a row that has ended is not overwritten |
| DeployQueue.DeployQueue.TryClaimDeployment | apps/server/src/deploy_queue.rs:657-670 | answers true exactly for a queued row, so a second claim fails |
| DeployQueue.DeployQueue.RequeueInterrupted | apps/server/src/deploy_queue.rs:629-645 | afterwards nothing is running or building, ended rows are as before, and the count is that of the requeued rows |
| DeployQueue.DeployQueue.ReapOrphans | apps/server/src/deploy_queue.rs:511-545 | of the listed rows, repeats included, exactly those still active and held by no live task are failed, and their number is returned |
| DeployQueue.OrphanNext | apps/server/src/deploy_queue.rs:523-545 | one more turn of the reaper's loop fails its row exactly when that row is an orphan not met before |
| DeployProtocol.StartedBySupersede | apps/server/src/dev_env.rs:522-536 | a start section leaves at most one started and active deployment per project and environment |
| DeployProtocol.ReceiversByTokenOp | apps/server/src/deploy_queue.rs:85-112 | registering, subscribing and dropping keep every task's receiver on a channel that only its own deployment's sender can own |
| DeployProtocol.StepKeepsInv | apps/server/src/deploy_queue.rs:85-360 | every step of every task and of the server keeps the whole invariant: locks and slots agree with program counters, receivers are counted, one started active row per environment, cancelled builds interruptible |
| DeployRuns.RowsAlong | apps/server/src/deploy_queue.rs:134-147 | along any run no row moves to another environment, becomes active again, leaves the terminal statuses or comes back once it has been deleted |
| DeployRuns.OneStartedActive | apps/server/src/dev_env.rs:522-536 | in every interleaving a project and environment never has two deployments that are started and active |
| DeployRuns.StartStaysInEnvironment | apps/server/src/deploy_queue.rs:140-147 | a start changes a row if and only if it is another active row of the same project and environment; a start without a row of its own, if and only if it is an active production row of its project |
| DeployCases.DeletedStartCancelsProduction | apps/server/src/deploy_queue.rs:125-147 | a run in which a dev deployment, cancelled and deleted before its task starts, cancels the project's production deployment |
| DeployRuns.BuildsExcludeEachOther | apps/server/src/deploy_queue.rs:328-360 | two builds never overlap on a node, whatever spelling of its id they used |
| DeployRuns.BuildBeginsOnActiveRow | apps/server/src/deploy_queue.rs:340-351 | a build begins only at the mark-running step, with its task holding the normalised node slot and its row active at that step |
| DeployRuns.NoBuildOnEndedRow | apps/server/src/deploy_queue.rs:345-349 | no build of an ended row ever begins, even when its cancel signal was lost or sent before registration |
| DeployRuns.EndIsFinal | apps/server/src/deploy_queue.rs:472-507 | until its row is deleted, a deployment that has ended stays ended, and stays as it ended if and only if no resume without a project writes it as failed |
| DeployRuns.ServerWrites | apps/server/src/deploy_queue.rs:177-215 | what each write outside the tasks does to a row, by its status: user cancel and teardown, the tool's cancel, reap, claim, requeue, the resume without a project, deletion |
| DeployCases.CancelledThenFailed | apps/server/src/routes.rs:3460-3489 | a run in which a resumed deployment that the user cancelled is written as failed because its project is gone |
| DeployRuns.ReportIsTheEndingWrite | apps/server/src/deploy_queue.rs:148-170 | supersede, user cancel, tool cancel, teardown, reap and finalise are told that they ended a row if and only if their step ended it; only the resume without a project ends one and is told nothing |
| DeployRuns.ReportedOnce | apps/server/src/deploy_queue.rs:506-543 | over a run no two of those writers are told that they ended the same row |
| DeployRuns.SupersededNeverSucceeds | apps/server/src/deploy_queue.rs:471-493 | a superseded deployment never becomes a success, however its build ends: it stays cancelled, or is failed by the resume without a project |
| DeployRuns.EndIsExplained | apps/server/src/dev_env.rs:457-494 | a row ends by a final write only as its task left: success after a good build, failed after a bad one or a refused start, cancelled after stopping short; the other endings are a supersede of another row, a user or tool cancel, a teardown, a reap or a resume without a project |
| DeployOutcome.FinalWriteIff | apps/server/src/dev_env.rs:457-494 | over any run, a task's final write on a row still queued, running or building makes it success if and only if its build completed well, failed if and only if the build completed badly or the start was refused, cancelled if and only if it stopped short at a check, in the wait, at mark-running or in the build; the task not being dropped since, and no other row changes |
| DeployOutcome.SkipIsCancelled | apps/server/src/deploy_queue.rs:281-360 | only a task that stopped short may leave out its final write |
| DeployOutcome.SomebodyGoesOn | apps/server/src/deploy_queue.rs:298-360 | no deadlock: an unfinished task can go on, or waits for the start lock or the node's slot and the task that holds it can |
| DeployCauses.StopHasCause | apps/server/src/deploy_queue.rs:281-360 | over any run, a task stops short only if its row has ended or is gone, or, since the token it sees was registered, a cancel of its deployment was delivered or a task of the same deployment replaced or removed the token |
| DeployCauses.DeliveredIsCancelled | apps/server/src/deploy_queue.rs:159-169 | a cancel still to be delivered is of a deployment that a signalling writer has cancelled |
| DeployCauses.DeliveryFollowsCancel | apps/server/src/deploy_queue.rs:159-169 | over any run, a cancel is delivered only after, in the same process, a start, a user or a teardown took that row to cancelled |
| DeployCauses.MissingWasClaimed | apps/server/src/routes.rs:3460-3489 | over any run, only a deployment that the resume took from the queue, in the same process and once, is failed for want of its project |
| DeployCauses.SpellingsExcludeEachOther | apps/server/src/deploy_queue.rs:28-35 | over any run, two tasks started on server ids that differ only in the spaces around them never build at the same time |
| DeployCauses.RegisteredOnce | apps/server/src/deploy_queue.rs:85-92 | a token is registered once, for one deployment |
| DeployRuns.SuccessIsEarned | apps/server/src/dev_env.rs:457-494 | a deployment becomes a success only if, earlier in the run, a task built that very deployment to a successful end while holding its node |
| DeployRuns.CancelReachesBuild | apps/server/src/deploy_queue.rs:281-290 | a running build that listens and whose row a start, user or teardown cancelled can be interrupted, or its signal is still to come |
| DeployCauses.EnteredWith | apps/server/src/deploy_queue.rs:308-311 | over any run, a task in the queue or the slot listens to the token its deployment had when it entered, if it had one |
| DeployCauses.CancelReachesRegistered | apps/server/src/deploy_queue.rs:308-360 | a running build whose deployment had a token when it entered, and whose row a start, user or teardown cancelled, can be interrupted, or its signal is still to come |
| DeployReaper.ReapHitsLiveTaskIff | apps/server/src/deploy_queue.rs:523-536 | over any run the reaper fails only what it had found without a live task; a task holds it at that write if and only if one subscribed to its token after the test, and since then neither it unlocked, left or was dropped, nor was the token replaced or removed, nor the process restarted |
| DeployReaper.OpListening | apps/server/src/deploy_queue.rs:85-112 | a step of any task leaves a task listening to a deployment if and only if it subscribed with that step, or did so before and the step did not end it |
| DeployCases.ReapedWhileHeld | apps/server/src/deploy_queue.rs:523-545 | a run in which the reaper fails an active deployment that a task began to hold after the reaper's test |
| Text.NodeKeyIdempotent | apps/server/src/deploy_queue.rs:28-35 | normalising a node id again changes nothing and never gives an empty key |
| Text.NodeKeyIs | apps/server/src/deploy_queue.rs:28-35 | the key of a node id is the id without the spaces around it, and `default` for a blank one |
| Text.LowerLetters | apps/server/src/dns_failover.rs:120-120 | each of the 26 letters becomes its small form and no other character changes |
| Text.TrimIs | apps/server/src/dns_failover.rs:120-120 | trimming takes away exactly the white space around a text |
| Text.SpacesListed | apps/server/src/deploy_queue.rs:28-35 | white space is the 25 characters with that property in Unicode |
| AgentRuns.AgentStore.EnqueueRun | apps/server/src/agent_runs.rs:93-125 | the returned run answers the message; a message that has a run gets no second one |
| AgentRuns.AgentStore.TryClaimAs | apps/server/src/agent_runs.rs:148-163 | wins exactly on a pending run, which then runs under the owner for 90 seconds with one attempt more, is the owner's to renew and no one's to claim; no other run changes |
| AgentRuns.AgentStore.RenewLease | apps/server/src/agent_runs.rs:166-177 | held exactly for the owner of a running run, whose lease then lasts 90 seconds from now, unexpired at any instant before, with owner, status and attempts unchanged; when not held nothing changes, and no other run ever does |
| AgentRuns.AgentStore.RecoverExpired | apps/server/src/agent_runs.rs:191-236 | a running run is cut off when its deadline has passed, at boot also without one, otherwise only with an owner; those cut off at the first reading with three attempts or no message are failed, those cut off at the second and not failed are made pending, all without a lease; every other run stays |
| AgentRuns.AgentStore.PauseRun | apps/server/src/agent_runs.rs:276-307 | an open run loses its lease and is paused; a paused one is left; an ended or missing one is refused |
| AgentRuns.AgentStore.JudgeRestart | apps/server/src/agent_runs.rs:308-336 | lets through exactly a paused (resume) or failed (retry) run whose message is in the thread, and leaves an open one alone |
| AgentRuns.AgentStore.FacingMessage | apps/server/src/agent_runs.rs:337-360 | the message chosen has no later assistant reply: the run's own when nobody answered it, else a new one at the end of the thread |
| AgentRuns.AgentStore.RestartRun | apps/server/src/agent_runs.rs:308-381 | changes exactly a paused (resume) or failed (retry) run with a message to replay, and leaves it attached to a message with no later assistant reply; retry resets the attempts, resume keeps them; every other run stays |
| AgentRuns.AgentStore.FinishRun | apps/server/src/agent_runs.rs:783-802 | an open run takes the status and loses its lease; one that is not open, and every other, stays |
| LeaseRuns.StepKeepsMessagesDistinct | apps/server/src/agent_runs.rs:93-125 | no step gives a message a second run |
| LeaseRuns.InvariantsAlways | apps/server/src/agent_runs.rs:148-236 | at every point owner and deadline are set together and only while running, and each message has at most one run |
| LeaseRuns.WriteMoves | apps/server/src/agent_runs.rs:132-132 | from which status each write of a run takes it to which, and that a write of another run takes it nowhere |
| LeaseRuns.MessagesStay | apps/server/src/agent_runs.rs:337-360 | over any run the thread only grows: no message changes or is lost |
| LeaseRuns.EndedForGood | apps/server/src/agent_runs.rs:132-132 | completed and cancelled runs that are no routines never change again |
| LeaseRuns.StoppedUntilRestarted | apps/server/src/agent_runs.rs:308-326 | a failed run that is no routine is left only by a retry of it, a paused one only by a resume of it |
| LeaseRuns.RoutineStaysIff | apps/server/src/rich_chat.rs:792-804 | a stopped routine, paused or ended, stays as it is if and only if its own unguarded last write does not follow with another status |
| LeaseCases.PausedRoutineCompletes | apps/server/src/rich_chat.rs:792-804 | a run in which a paused routine becomes completed without a resume |
| LeaseRuns.LostLeaseStaysLost | apps/server/src/agent_runs.rs:165-177 | once a renewal by an owner fails, all its renewals fail until that owner claims again |
| LeaseRuns.RenewingOwnerKeepsRun | apps/server/src/agent_runs.rs:188-190 | an owner that renews within 90 seconds of its last beat is never recovered, nobody else claims its run, and every renewal succeeds |
| LeaseRuns.LeaseExclusive | apps/server/src/agent_runs.rs:148-177 | for 90 seconds after a claim or renewal no recovery touches the run and no claim of it succeeds, unless a control or finish intervenes |
| LeaseRuns.RecoverySorts | apps/server/src/agent_runs.rs:196-231 | at one clock reading a running run past its deadline, or at boot without one, loses its lease and is requeued if it has had fewer than three attempts and has a message, else failed; every other run stays |
| LeaseRuns.PassIsItsUpdates | apps/server/src/agent_runs.rs:202-230 | a pass at one reading of the clock is its two updates one after the other |
| LeaseRuns.RecoverySettles | apps/server/src/agent_runs.rs:188-190 | an immediate second pass changes nothing |
| LeaseRuns.RequeuedPastLimit | apps/server/src/agent_runs.rs:196-231 | with two readings, a run at the limit is requeued if and only if its deadline lies between them |
| LeaseRuns.CrashLoopEnds | apps/server/src/agent_runs.rs:128-130 | a run that nobody resumes or retries and no pass requeues late is claimed at most three times, whatever its owners and the passes do |
| LeaseRuns.AttemptsAreClaims | apps/server/src/agent_runs.rs:148-163 | over any run without a restart of it, a run's attempts are the number of its winning claims |
| LeaseRuns.FourthClaimIff | apps/server/src/agent_runs.rs:196-231 | over any run without a restart of it, a run is claimed a fourth time if and only if a claim of it wins after the second update of a pass requeued it at the limit |
| LeaseCases.FourthClaim | apps/server/src/agent_runs.rs:196-231 | a run that nobody resumes or retries, claimed a fourth time because its third lease ran out between the two readings of a pass |
| DnsFailover.HealthyServedByOne | apps/server/src/dns_failover.rs:66-83 | two interim leaders that see the same answer both want the control plane only when it is down |
| DnsFailover.SameTargetIff | apps/server/src/dns_failover.rs:119-122 | two targets count as the same if and only if, without spaces around them and dots after them, they are the same host, case aside; a blank one never does |
| DnsFailover.RestoreNeeds | apps/server/src/dns_failover.rs:99-117 | a leader puts the name back if and only if it is healthy, no interim acts, and the name is off its home on one of the workers' hosts |
| DnsFailover.Get | apps/server/src/dns_failover.rs:190-194 | an entry of that name, case aside, if there is one |
| DnsFailover.RecordRemembersFirst | apps/server/src/dns_failover.rs:197-212 | recording keeps the first original for ever, changes only the target of a known name, and disturbs no other name |
| DnsFailover.RecordKeepsJournal | apps/server/src/dns_failover.rs:206-211 | the journal stays lower-case and free of repeats |
| DnsFailover.RestoreReturnsNames | apps/server/src/dns_failover.rs:463-475 | after a restore a name points at its journalled original if that is known, not blank and its update succeeded, else where it did |
| DnsFailover.TakenMoves | apps/server/src/dns_failover.rs:438-448 | taking a name touches no other, journals it with the target it had, and points it here if its update succeeds |
| DnsFailover.MovesCompose | apps/server/src/dns_failover.rs:415-449 | moves one after the other leave for each name the entry from before its first move, and names already served here stay so |
| DnsFailover.FailoverNode.TakeName | apps/server/src/dns_failover.rs:438-448 | an entry with the current target is added only if there is none; the name moves if and only if the update succeeds |
| DnsFailover.FailoverNode.VisitControlPlane | apps/server/src/dns_failover.rs:379-408 | the control plane's name points here afterwards if it is down or this node serves it, unless lookup or update fails; served by another node or by none that says who it is, it stays |
| DnsFailover.FailoverNode.VisitDomain | apps/server/src/dns_failover.rs:415-449 | a managed domain on the original leader whose tunnel is down points here afterwards, unless lookup or update fails; one elsewhere or alive stays |
| DnsFailover.FailoverNode.InterimTick | apps/server/src/dns_failover.rs:370-453 | every domain on the original leader whose tunnel is down, and the control plane's name if it is down or served by this node, points here unless a lookup or update failed; any other name, and one that points here already, is left alone in zone and journal; every moved name has an entry holding its earlier target, and old entries stay |
| DnsFailover.FailoverNode.Restore | apps/server/src/dns_failover.rs:457-478 | names are put back and exactly the entries with a known, nonblank original whose update failed stay in the journal; with no failure it ends empty |
| FailoverRuns.StepKeepsInv | apps/server/src/dns_failover.rs:370-479 | every step, failed and torn saves, syncs and crashes included, keeps: the journal is lower-case and free of repeats, a tick's memory extends it, and what a restore has left is still in it |
| FailoverJournal.EntryDurableIff | apps/server/src/dns_failover.rs:230-242 | over any run with failing and torn saves and crashes, a name has an entry on disk if and only if it was recorded in a tick whose memory was then saved, for this name, another or at the tick's end, before a crash or that end lost it, perhaps loaded and saved again by later ticks, and since the last of these saves no write tore the file and no restore dropped it |
| FailoverJournal.EntryExactIff | apps/server/src/dns_failover.rs:392-404 | whatever recording, saving, reading and first move lie behind a moved name's entry, it holds the target from before that move if and only if the reading found the same target |
| FailoverJournal.MovedEntryExactIff | apps/server/src/dns_failover.rs:392-404 | every moved name with an entry on disk has such a history, and the entry is exact if and only if no net rewrite, the node's own lost move included, lies between reading and first move |
| FailoverJournal.QuietEntryExact | apps/server/src/dns_failover.rs:438-448 | an entry is exact when nobody writes the name from its reading to its first move |
| FailoverJournal.LostRecordKeepsOwnMove | apps/server/src/dns_failover.rs:393-404 | when the first record was lost and the name is read again, the entry holds the node's own earlier target |
| FailoverJournal.TickBegan | apps/server/src/dns_failover.rs:362-453 | every tick began while the node acted as leader, and saves at its end if and only if some update of it was answered with success |
| FailoverJournal.MovedWhileActing | apps/server/src/dns_failover.rs:376-406 | over any run, a name is moved only within a tick that began while the node acted, after that tick read it to point elsewhere, and to the tick's ingress |
| FailoverJournal.MovedNamesRecoverable | apps/server/src/dns_failover.rs:393-404 | if the saves of one name succeed and no torn write finds its entry on disk then, whatever else fails, it is read, recorded, saved and only then first moved, and that entry is on disk at every later point until the name is restored |
| FailoverSync.OverriddenNameStaysIff | apps/server/src/dns.rs:337-375 | while the node acts, no one outside the DNS loop writes the name, it is not restored, the file not torn and no tick moves it elsewhere, a moved and journalled name keeps pointing here if and only if no sync that passed its test before the move writes another target after it |
| FailoverSync.TestedBeforeMove | apps/server/src/dns.rs:337-344 | a sync that writes the name after the move had passed its test before it, in the same process; none can pass it later |
| FailoverSync.WriteShows | apps/server/src/dns_failover.rs:438-475 | what each step that may write a name leaves there: the tick's ingress, the entry's original, the sync's or the other writer's target |
| FailoverSync.SyncBegan | apps/server/src/dns.rs:337-375 | a sync under way was begun, and has neither written nor failed nor met a crash since |
| FailoverCases.RecordLost | apps/server/src/dns_failover.rs:393-404 | for any name and targets, a run after which a moved name has no entry anywhere |
| FailoverCases.RecordMadeGood | apps/server/src/dns_failover.rs:450-452 | the same run ended by the tick's last save instead of a crash: the entry is on disk, and exact |
| FailoverCases.OwnMoveRecorded | apps/server/src/dns_failover.rs:376-404 | a run in which every save but the first succeeds, nobody else writes the name, and the entry on disk is wrong |
| FailoverCases.TornSaveLoses | apps/server/src/dns_failover.rs:230-242 | a run in which a durable and exact entry of a moved name is lost because the save of another name tears the file |
| FailoverCases.LateSyncUndoesMove | apps/server/src/dns.rs:337-375 | a run in which a sync that asked before the name was journalled points it back at the dead leader while the node acts and the entry is on disk |
| FailoverProcedure.ServeIsARun | apps/server/src/dns_failover.rs:389-406 | the machine's steps for one name, in any spelling, have the effect that the procedure promises |
| FailoverProcedure.TickIsARun | apps/server/src/dns_failover.rs:370-453 | a whole tick of the procedure is a run of the machine with the same zone and journal |
| FailoverProcedure.RestoreIsARun | apps/server/src/dns_failover.rs:457-478 | the machine's restore, with any set of failing updates, leaves the zone and journal that the procedure promises |
| FailoverRestore.RestoreUndoesMoves | apps/server/src/dns_failover.rs:455-479 | over any run, with any other writers and syncs meanwhile, a restore gives every entry one turn; a known original whose update takes effect is pointed at unless the name is written since; once the last save is written the file holds exactly the known entries whose update did not answer with success |
| FailoverRestore.RestoreBegan | apps/server/src/dns_failover.rs:455-479 | whatever a restore does belongs to one started before, and neither ended, given up nor cut off by a crash since |
| FailoverRestore.OneTurn | apps/server/src/dns_failover.rs:463-475 | no entry has two turns in a restore |
| FailoverRestore.MovedNameReturnsIff | apps/server/src/dns_failover.rs:455-479 | a moved name whose turn takes effect and that nobody writes after it ends where it pointed before its first move if and only if the reading behind its entry found that target |
| LeaderReturn.LeaderNode.LeaderTick | apps/server/src/dns_failover.rs:502-560 | only this name moves, off a worker that the tick's list names, to the target saved for it, and does unless an interim acts, writes are fenced, it is there already or the update fails; a target on no listed worker is remembered, and no other |
| LeaderReturn.TickIsItsSteps | apps/server/src/dns_failover.rs:502-560 | the reading, judging, asking and writing steps of the machine, undisturbed, have the effect of the tick |
| LeaderReturn.ZoneAfter | apps/server/src/dns_failover.rs:552-556 | only the leader's update that takes effect and others' writes move the name, and to what they write |
| LeaderReturn.RemembersWorkerIff | apps/server/src/dns_failover.rs:512-543 | whatever is written in between, a real worker's target is remembered in a run if and only if some tick saw the name on a real worker that its own list left out, and wrote that down |
| LeaderReturn.LeaderReturnsHomeIff | apps/server/src/dns_failover.rs:99-117 | after any outage in which the name wanders among workers, each of the leader's writes puts the name at home, and a tick that meets no interim leader and succeeds leaves it there if and only if it does not see it on a real worker that its list leaves out |
| LeaderReturn.HomeForgotten | apps/server/src/dns_failover.rs:512-543 | a run of one tick that gets no list while the name is on a worker, and remembers that worker for home |
| LeaderReturn.NeverReturns | apps/server/src/dns_failover.rs:530-560 | once the name and the memory agree on a target, no tick with any list and answers ever moves the name or changes the memory |
| Base64.SymbolIsTable | apps/server/src/dns_failover.rs:564-564 | the alphabet is the encoder's table |
| Base64.RoundTrip | apps/server/src/dns_failover.rs:563-587 | decoding by section 4 of RFC 4648 gives back every byte sequence |
| Base64.EncodedLength | apps/server/src/dns_failover.rs:565-565 | the output has four characters for every three bytes begun |
| Base64.EncodedShape | apps/server/src/dns_failover.rs:575-584 | padding stands exactly at the end, as many characters as bytes are missing; all others are of the alphabet |
| Base64.Base64Encode | apps/server/src/dns_failover.rs:563-587 | the loop over chunks computes the encoding |
| DockerGc.ParseImages | apps/server/src/docker_gc.rs:357-386 | the images have unique ids: for each id the first line that parses, and no other |
| DockerGc.SortIsRanked | apps/server/src/docker_gc.rs:552-552 | the stable sort lists a project's images by recency, ties in the order given |
| DockerGc.TopOfGroup | apps/server/src/docker_gc.rs:551-556 | the first `keep_n` of a project's sorted list are exactly the images with fewer than `keep_n` of the project ranked ahead |
| DockerGc.GroupByProject | apps/server/src/docker_gc.rs:544-549 | each project's group lists its images in the order given |
| DockerGc.ProtectRollback | apps/server/src/docker_gc.rs:550-556 | the ids gathered are those of the `keep_n` highest ranked images of every project |
| DockerGc.SortBySizeOrders | apps/server/src/docker_gc.rs:614-614 | candidates are listed from the largest to the smallest |
| DockerGc.SortBySizeIsStable | apps/server/src/docker_gc.rs:614-614 | candidates of one size stay in the order found |
| ImageNames.SplitsAtColon | apps/server/src/docker_gc.rs:498-507 | a repository and a tag without colon or slash are parted at the colon between them, `docker.io/` and `library/` in front or not |
| ImageNames.SplitsUntagged | apps/server/src/docker_gc.rs:498-507 | a reference without a colon after its last slash is the tag `latest` of the whole |
| ImageNames.TagNamesProject | apps/server/src/docker_gc.rs:509-516 | a tag `df-p:v` names the project `df-p` if and only if p is a nonempty text of letters, digits and dashes |
| ImageNames.OtherTagNamesNone | apps/server/src/docker_gc.rs:509-516 | a repository that does not begin with `df-` names no project |
| ImageNames.FirstTagDecides | apps/server/src/docker_gc.rs:509-516 | the first tag that names a project decides, whatever comes after |
| ImageNames.OthersAreNotCurrent | apps/server/src/docker_gc.rs:518-523 | no tag but `latest`, and no repository without `df-`, marks the current deployment |
| ImageNames.SafeRefIs | apps/server/src/docker_gc.rs:267-272 | the references let through are those of one to 256 letters, digits and seven other characters |
| DockerGc.SelectImages | apps/server/src/docker_gc.rs:527-616 | the loops compute the plan in which each image has the verdict of the declarative rule |
| GcSafety.EachImageOnce | apps/server/src/docker_gc.rs:558-613 | with unique ids every image is in exactly one of remove and kept, and nothing else is in either |
| GcSafety.RemovedExactlyWhen | apps/server/src/docker_gc.rs:558-613 | with unique ids an image is removed if and only if no container uses it, it is no current deployment, its references are safe, and as many as are kept per project, one at least, are ranked ahead or, outside projects, it is older than the retention hours |
| GcSafety.RemovedIsUnused | apps/server/src/docker_gc.rs:525-526 | no removed image is used by a container in any state, tagged `df-…:latest`, among its project's `keep_n` newest or, outside projects, newer than the cutoff; its references are safe |
| GcSafety.CurrentDeployKept | apps/server/src/docker_gc.rs:518-523 | an image with a tag `df-…:latest`, the registry in front or not, is never removed |
| GcSafety.ProjectTagProtects | apps/server/src/docker_gc.rs:510-556 | an image whose first project tag is `df-p:v` counts in project `df-p`, and is kept while fewer than are kept per project are ahead of it |
| GcSafety.ReasonIs | apps/server/src/docker_gc.rs:558-583 | kept as running exactly when a running, restarting or paused container uses it, as stopped when only others do, as current when none does and a tag says so; orphans have no tags |
| GcSafety.ReplacementsKept | apps/server/src/docker_gc.rs:551-583 | each removed project image has `keep_n` kept images of its project that are at least as recent |
| GcSafety.SelectionMonotone | apps/server/src/docker_gc.rs:540-541 | raising the rollback count or the retention removes no image that was kept |
| GcSafety.RankDrops | apps/server/src/docker_gc.rs:551-556 | dropping images never pushes a remaining one down its project's ranking |
| GcSafety.SecondRunRemovesNothing | apps/server/src/docker_gc.rs:527-616 | the selection run again on its survivors, same clock and settings, removes nothing |
| GcScript.RemovalScript | apps/server/src/docker_gc.rs:653-659 | the loops write, for each safe reference of the plan in order, its echo and its removal |
| GcScript.ScriptRemovesThePlan | apps/server/src/docker_gc.rs:653-659 | cut at its semicolons, the script holds an `image rm` of a reference if and only if it belongs to a removed image |
| GcScript.ScriptReads | apps/server/src/docker_gc.rs:653-659 | a POSIX shell reads the script as, for each safe reference, `echo` of one word and `docker image rm` of that one word, piped into `tail -n 2` |
| AutoDeployGuard.SameShaOnHex | apps/server/src/auto_deploy_guard.rs:59-63 | two hexadecimal commits match if and only if one begins the other, case aside |
| AutoDeployGuard.UsableIff | apps/server/src/auto_deploy_guard.rs:54-57 | a commit counts if and only if, spaces around it aside, it is at least seven characters, all hexadecimal |
| AutoDeployGuard.SameShaNotTransitive | apps/server/src/auto_deploy_guard.rs:59-63 | a short commit matches any two longer ones that differ after it |
| AutoDeployGuard.BackoffIsCappedPower | apps/server/src/auto_deploy_guard.rs:65-71 | the wait after k failures is min(2^k, 60) minutes, an hour exactly from the sixth on |
| AutoDeployGuard.Decide | apps/server/src/auto_deploy_guard.rs:74-99 | blocked if and only if an attempt with status failed or error, no newer one with success or ready, was on a matching commit; else the wait runs from the newest such attempt and is the one owed for all of them; without any, go |
| AutoDeployGuard.SuccessSettles | apps/server/src/auto_deploy_guard.rs:79-80 | what is older than an attempt with status success or ready does not matter |
| AutoDeployGuard.OthersDoNotCount | apps/server/src/auto_deploy_guard.rs:90-90 | an attempt of any other status may be left out, wherever it stands |
| AutoDeployGuard.MayStartIff | apps/server/src/auto_deploy.rs:321-342 | the poller may start if and only if every active attempt is an hour old and, of the newest twenty, none that is unsettled failed on this commit and the newest unsettled one lies as far back as they all owe |
| AutoDeployGuard.WindowGivesSameWait | apps/server/src/auto_deploy_guard.rs:101-111 | reading 20 rows gives the wait of the whole history if and only if no failure is missed or six are seen |
| AutoDeployGuard.WindowMissesFailure | apps/server/src/auto_deploy_guard.rs:101-111 | any twenty cancelled attempts in front of a failed one: the whole history says to wait, the window does not |
| AutoDeployGuard.StartWaits | apps/server/src/auto_deploy.rs:321-333 | wherever an attempt stands in the window: a start comes an hour after it if it is active; if it failed and no newer success hides it, the start is not on its commit, and if it is the newest such failure comes after the wait that all of them owe, two minutes at least |
| AutoDeployGuard.AttemptsSpread | apps/server/src/auto_deploy.rs:321-342 | over a whole run of failing attempts, attempt k+1 starts at least min(2^k, 60) minutes after attempt k, though only 20 rows are read |
| WorkerNames.SlugName | apps/server/src/cursor_worker.rs:208-221 | the loop computes the slug |
| WorkerNames.SlugIsShaped | apps/server/src/cursor_worker.rs:207-221 | a slug is lower-case letters, digits and single inner dashes, never begins with a dash, 48 characters at most |
| WorkerNames.SlugIsDashedWords | apps/server/src/cursor_worker.rs:207-221 | a slug is the text's runs of letters and digits in lower case with a dash between them, cut at 48 characters |
| WorkerNames.SlugStable | apps/server/src/cursor_worker.rs:220-220 | a slug is its own slug if and only if the text before the cut has no more than 48 characters or no dash in the 48th place |
| WorkerNames.SlugUnstable | apps/server/src/cursor_worker.rs:220-220 | any 47 letters followed by a dash and another letter: the slug ends in the dash, its own slug does not |
| WorkerNames.FreeName | apps/server/src/cursor_worker.rs:787-792 | the search ends, with the name itself or the first free numbered one, after at most as many tries as there are names |
| WorkerNames.NumberedReads | apps/server/src/cursor_worker.rs:789-789 | a numbered name is the name, a dash, and digits that read back as the number |
| WorkerNames.RepoWorkerNamesFrom | apps/server/src/cursor_worker.rs:774-796 | one nonempty name per label, pairwise distinct, each the first free one at its turn |
| ShellWords.QuoteReadsBack | apps/server/src/cursor_worker.rs:829-832 | a shell reads a quoted string back as itself, whatever it contains and whatever surrounds it |
| ShellWords.ListReadsBack | apps/server/src/cursor_worker.rs:913-913 | a list of quoted items is read back as exactly those words |
| ShellWords.SpecSplitsBack | apps/server/src/cursor_worker.rs:914-914 | removing the shortest bar-suffix and the longest bar-prefix of a word gives its path and its sanitised branch, bars in the path included |
| ShellWords.StartScriptReadsBack | apps/server/src/cursor_worker.rs:902-914 | the `for spec in` line yields one word per project, which splits back into its path and sanitised branch; without projects, one empty path |
| ShellWords.SafeBranchStable | apps/server/src/cursor_worker.rs:467-479 | sanitising a sanitised branch changes nothing |
| ShellWords.SafeBranchIff | apps/server/src/cursor_worker.rs:467-479 | with whatever spaces around it, a branch is accepted as it is if and only if it has 1 to 200 plain characters, begins with neither dash nor slash, ends neither in a slash nor in `.lock`, and has no two dots together |
| JoinLimiter.Limiter.Hit | apps/server/src/cluster_routes.rs:134-155 | counts the hit in the address's window or opens one, accepts while it counts at most twenty, and drops other addresses' windows only when over |
| JoinLimiter.WindowBound | apps/server/src/cluster_routes.rs:142-148 | an address gets at most twenty joins accepted per window |
| JoinLimiter.SpanBound | apps/server/src/cluster_routes.rs:134-155 | in any half-open span of sixty seconds at most 39 joins of one address are accepted |
| JoinLimiter.SpanBoundIsTight | apps/server/src/cluster_routes.rs:134-155 | 39 is attained |
| Rebalance.RemoveTallies | apps/server/src/cluster_routes.rs:1442-1443 | the saturating subtraction never saturates |
| Rebalance.TotalIsSize | apps/server/src/cluster_routes.rs:1428-1432 | counts that tally a list of placements sum to its length |
| Rebalance.CountProjects | apps/server/src/cluster_routes.rs:1428-1432 | the first loop counts each node's projects |
| Rebalance.PlaceOne | apps/server/src/cluster_routes.rs:1440-1449 | one turn keeps the counts equal to the projects planned so far plus those still in place; the project goes to the key of the node that the placement names on those counts, and stays when it names none |
| Rebalance.Plan | apps/server/src/cluster_routes.rs:1428-1452 | each project is placed by the counts of all the others where they are planned or still are; in the end the counts are the plan's and sum to the number of projects |

## Left out

- LeaseRuns.CrashLoopEnds: excludes resume and retry of the run, and the late requeue of it at the limit, because the
  code exceeds three attempts there; `LeaseRuns.FourthClaimIff` gives the exact case.
- FailoverJournal.MovedNamesRecoverable: assumes that the saves of the name in question succeed and that no torn write
  finds its entry on disk, because the code ignores both; `FailoverJournal.EntryDurableIff` has no such assumption.
- DnsFailover.FailoverNode.InterimTick: the class writes the journal as if every save succeeded, and every update
  is answered; failing and torn saves and lost answers are in the machine of `FailoverRuns`.
- FailoverRestore.RestoreUndoesMoves: a tick and a restore of one node do not overlap; the code has no lock
  between them. Entries with no known original are dropped, as in the code.
- LeaderReturn.LeaderReturnsHomeIff: in an outage others write only real workers' targets and the lists name only real
  workers; the control plane's name itself stays the same over a run.
- AutoDeployGuard.AttemptsSpread: the poller is the only starter and each attempt has failed before the next
  begins; an attempt still active would be cancelled by the next start and so would not fail.
- AutoDeployGuard.StartWaits: the active attempts are looked for in the same history as the gate's, though the
  poller's query names production only; the recording of a stuck commit (`escalate_once`) is not modelled.
- DockerGc.ParseImages: starts from lines already split and parsed; only which line of each id counts is modelled.
- DeployQueue.DeployQueue.ReapOrphans: which rows count as stale is a parameter, since `updated_at` and the clock
  are not modelled.
- Rebalance.Plan: a failed database relocation is not modelled; the code then keeps the planned count.
- A signal may be delivered after the start lock is released, more than the code allows.
- Deployment logs, error texts, `mark_status` and every write of `projects.status`, the tool cancel's included.
- Owner fencing on finish: the code checks only that a run is open, so a late finish by an expired owner closes a
  run claimed elsewhere.
- Deletion of agent messages, `project_agents` status, run titles and errors, `cancel_requested`, the number of
  active workers that limits promotion.
- Traefik routes, HTTP probes, provider calls, Docker, git and Postgres: each is a step that succeeds or fails.
- The builder and BuildKit part of the cleanup script, its prelude and its output; disk sizes, percentages, cron.
- The rest of the start script: worktrees, processes, and the shell's own naming loop `dfname`.
- The address that the join limiter reads from the request headers.
- Placement scoring, election, peer replication, cluster snapshots, evacuation and the correction workflow.
- Text is sequences of characters; lengths in bytes and in characters agree wherever the code compares them,
  because only ASCII passes the check beside it.
