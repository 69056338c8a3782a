/**
 The deploy queue as a transition system: any number of deployment tasks, user cancels, teardowns,
 reaps, restarts and lost signals interleave, one guarded write or one lock operation at a time.
 */
module DeployProtocol {
  import opened Text
  import opened DeployRows
  import opened CancelRegistry

  datatype Outcome = Built(ok: bool) | Aborted

  /** Where a task stands between its row's insertion and its final write. */
  datatype Pc =
    | Spawned                    // the row exists, nothing done yet
    | Starting                   // holds the project's start lock
    | Registered                 // token registered, lock still held
    | Superseded                 // other rows cancelled, lock still held
    | Started                    // lock released
    | Subscribed                 // entered run_in_node_slot
    | Waiting                    // passed the first check, waits for the node
    | Holding                    // holds the node's slot
    | Checked                    // passed the second check, slot held
    | Working                    // marked running, the build is under way
    | Exited(outcome: Outcome)   // slot released, token still registered
    | Closed(outcome: Outcome)   // token removed, final write to come
    | Finished

  /** `node` is the normalised key of the node the task will build on. */
  datatype Task = Task(uuid: Uuid, project: int, node: string, pc: Pc, rx: Option<nat>)

  /**
   `signals` are the deployments already written as cancelled whose token is yet to be raised, `reaping`
   those the reaper has found without a live task and is about to fail, `resuming` those that the resume
   after a restart has claimed. `gone` are those whose row was deleted or never inserted: their uuid never comes back. `started` and
   `signalled` record, for the proofs, whose start section has run and who was cancelled by a writer
   that signals.
   */
  datatype State = State(
    rows: Rows,
    registry: Registry,
    tasks: map<TaskId, Task>,
    starts: map<int, TaskId>,
    slots: map<string, TaskId>,
    signals: set<Uuid>,
    reaping: set<Uuid>,
    resuming: set<Uuid>,
    gone: set<Uuid>,
    started: set<Uuid>,
    signalled: set<Uuid>)

  /** What one task does next. */
  datatype Op =
    | RefuseStart
    | LockStart
    | RegisterToken(keepReceiver: bool)
    | Supersede
    | UnlockStart
    | EnterSlot
    | CheckBefore
    | CancelWait
    | AcquireSlot
    | CheckAfter
    | MarkRunning
    | Complete(ok: bool)
    | Interrupt
    | UnregisterToken
    | Finalize
    | SkipFinalize
    | Drop

  /** What the rest of the server does. */
  datatype Event =
    | Insert(uuid: Uuid, project: int, environment: string)
    | Spawn(task: TaskId, uuid: Uuid, serverId: string)
    | SpawnUnrecorded(task: TaskId, uuid: Uuid, project: int, serverId: string)   // its row could not be inserted
    | Deliver(uuid: Uuid)
    | UserCancel(uuid: Uuid)
    | Teardown(project: int, environment: string)
    | ToolCancel(uuid: Uuid)      // the agent's tool: it writes, and signals nobody
    | ReapTest(uuid: Uuid)        // the reaper finds no live task
    | Reap(uuid: Uuid)            // and fails the row, if it is still active
    | Claim(uuid: Uuid)
    | FailMissing(uuid: Uuid)     // the resume finds no project: its write has no status guard
    | Delete(uuid: Uuid)
    | Requeue
    | Restart

  datatype Step = ByTask(task: TaskId, op: Op) | ByServer(event: Event)

  predicate InStart(pc: Pc) {
    pc.Starting? || pc.Registered? || pc.Superseded?
  }

  predicate InSlot(pc: Pc) {
    pc.Holding? || pc.Checked? || pc.Working?
  }

  ghost predicate Ready(s: State, task: Task, op: Op) {
    match op
    case RefuseStart => task.pc.Spawned?
    case LockStart => task.pc.Spawned? && task.project !in s.starts
    case RegisterToken(_) => task.pc.Starting?
    case Supersede => task.pc.Registered?
    case UnlockStart => task.pc.Superseded?
    case EnterSlot => task.pc.Started?
    case CheckBefore => task.pc.Subscribed?
    case CancelWait => task.pc.Waiting? && task.rx.Some? && Interrupts(s.registry, task.rx.value)
    case AcquireSlot => task.pc.Waiting? && task.node !in s.slots
    case CheckAfter => task.pc.Holding?
    case MarkRunning => task.pc.Checked?
    case Complete(_) => task.pc.Working?
    case Interrupt => task.pc.Working? && task.rx.Some? && Interrupts(s.registry, task.rx.value)
    case UnregisterToken => task.pc.Exited?
    case Finalize => task.pc.Closed?
    case SkipFinalize => task.pc == Closed(Aborted)
    case Drop => true
  }

  ghost predicate Enabled(s: State, step: Step) {
    match step
    case ByTask(t, op) => t in s.tasks && Ready(s, s.tasks[t], op)
    case ByServer(Insert(u, _, _)) => u !in s.rows && u !in s.gone
    case ByServer(Spawn(t, u, _)) => t !in s.tasks && u in s.rows
    case ByServer(SpawnUnrecorded(t, u, _, _)) => t !in s.tasks && u !in s.rows
    case ByServer(Deliver(u)) => u in s.signals
    case ByServer(ReapTest(u)) => !HasLiveTask(s.registry, u)
    case ByServer(Reap(u)) => u in s.reaping
    case ByServer(FailMissing(u)) => u in s.resuming
    case ByServer(Delete(u)) => u in s.rows && !Cancellable(s.rows[u].status)
    case ByServer(_) => true
  }

  function Move(s: State, t: TaskId, pc: Pc): State
    requires t in s.tasks
  {
    s.(tasks := s.tasks[t := s.tasks[t].(pc := pc)])
  }

  function Release<K>(locks: map<K, TaskId>, t: TaskId): map<K, TaskId> {
    map k | k in locks && locks[k] != t :: locks[k]
  }

  /** Leaving run_in_node_slot: the slot guard and the receiver are dropped. */
  function Exit(s: State, t: TaskId, outcome: Outcome): State
    requires t in s.tasks
  {
    s.(tasks := s.tasks[t := s.tasks[t].(pc := Exited(outcome), rx := None)],
       slots := Release(s.slots, t),
       registry := Unsubscribe(s.registry, t))
  }

  /** A write that cancels `hits` and owes each of them a signal. */
  function CancelAll(s: State, hits: set<Uuid>): State {
    s.(rows := Write(s.rows, hits, Cancelled), signals := s.signals + hits, signalled := s.signalled + hits)
  }

  function FinalStatus(outcome: Outcome): Status {
    match outcome
    case Built(ok) => if ok then Success else Failed
    case Aborted => Cancelled
  }

  ghost function TaskStep(s: State, t: TaskId, op: Op): State
    requires t in s.tasks && Ready(s, s.tasks[t], op)
  {
    var task := s.tasks[t];
    match op
    case RefuseStart => Move(s, t, Closed(Built(false)))
    case LockStart => Move(s, t, Starting).(starts := s.starts[task.project := t])
    case RegisterToken(keep) =>
      s.(registry := Register(s.registry, task.uuid, if keep then {t} else {}),
         tasks := s.tasks[t := task.(pc := Registered, rx := if keep then Some(s.registry.next) else None)])
    case Supersede =>
      var hits := SupersedeHits(s.rows, task.project, task.uuid);
      CancelAll(Move(s, t, Superseded), hits).(started := s.started + {task.uuid})
    case UnlockStart =>
      s.(tasks := s.tasks[t := task.(pc := Started, rx := None)],
         starts := Release(s.starts, t),
         registry := Unsubscribe(s.registry, t))
    case EnterSlot =>
      var rx := if task.uuid in s.registry.cancels then Some(s.registry.cancels[task.uuid]) else None;
      s.(registry := Subscribe(s.registry, task.uuid, t), tasks := s.tasks[t := task.(pc := Subscribed, rx := rx)])
    case CheckBefore =>
      if IsCancelled(s.registry, task.uuid)
         || (task.rx.Some? && task.rx.value in s.registry.channels && s.registry.channels[task.rx.value].value)
      then Exit(s, t, Aborted)
      else Move(s, t, Waiting)
    case CancelWait => Exit(s, t, Aborted)
    case AcquireSlot => Move(s, t, Holding).(slots := s.slots[task.node := t])
    case CheckAfter => if IsCancelled(s.registry, task.uuid) then Exit(s, t, Aborted) else Move(s, t, Checked)
    case MarkRunning =>
      var hits := ActiveHits(s.rows, task.uuid);
      if hits == {} then Exit(s, t, Aborted)
      else Move(s, t, Working).(rows := Write(s.rows, hits, Running))
    case Complete(ok) => Exit(s, t, Built(ok))
    case Interrupt => Exit(s, t, Aborted)
    case UnregisterToken => Move(s, t, Closed(task.pc.outcome)).(registry := Unregister(s.registry, task.uuid))
    case Finalize =>
      Move(s, t, Finished).(rows := Write(s.rows, ActiveHits(s.rows, task.uuid), FinalStatus(task.pc.outcome)))
    case SkipFinalize => Move(s, t, Finished)
    case Drop =>
      s.(tasks := s.tasks - {t},
         starts := Release(s.starts, t),
         slots := Release(s.slots, t),
         registry := Unsubscribe(s.registry, t))
  }

  ghost function ServerStep(s: State, event: Event): State
    requires Enabled(s, ByServer(event))
  {
    match event
    case Insert(u, p, e) => s.(rows := s.rows[u := Row(p, e, Queued)])
    case Spawn(t, u, id) => s.(tasks := s.tasks[t := Task(u, s.rows[u].project, NodeKey(id), Spawned, None)])
    case SpawnUnrecorded(t, u, p, id) => s.(tasks := s.tasks[t := Task(u, p, NodeKey(id), Spawned, None)], gone := s.gone + {u})
    case Deliver(u) => s.(registry := Signal(s.registry, {u}), signals := s.signals - {u})
    case UserCancel(u) => CancelAll(s, CancelHits(s.rows, u))
    case Teardown(p, e) => CancelAll(s, TeardownHits(s.rows, p, e))
    case ToolCancel(u) => s.(rows := Write(s.rows, ToolHits(s.rows, u), Cancelled))
    case ReapTest(u) => s.(reaping := s.reaping + {u})
    case Reap(u) => s.(rows := Write(s.rows, ActiveHits(s.rows, u), Failed), reaping := s.reaping - {u})
    case Claim(u) => s.(rows := Write(s.rows, ClaimHits(s.rows, u), Running), resuming := s.resuming + ClaimHits(s.rows, u))
    case FailMissing(u) => s.(rows := Write(s.rows, {u}, Failed), resuming := s.resuming - {u})
    case Delete(u) => s.(rows := s.rows - {u}, gone := s.gone + {u})
    case Requeue => s.(rows := Write(s.rows, RequeueHits(s.rows), Queued))
    case Restart =>
      s.(registry := Registry(map[], map[], s.registry.next), tasks := map[], starts := map[], slots := map[],
         signals := {}, reaping := {}, resuming := {})
  }

  ghost function Apply(s: State, step: Step): State
    requires Enabled(s, step)
  {
    match step
    case ByTask(t, op) => TaskStep(s, t, op)
    case ByServer(event) => ServerStep(s, event)
  }

  /** The rows whose terminal write this step is told it made. */
  ghost function Reports(s: State, step: Step): set<Uuid>
    requires Enabled(s, step)
  {
    match step
    case ByTask(t, Supersede) => SupersedeHits(s.rows, s.tasks[t].project, s.tasks[t].uuid)
    case ByTask(t, Finalize) => ActiveHits(s.rows, s.tasks[t].uuid)
    case ByServer(UserCancel(u)) => CancelHits(s.rows, u)
    case ByServer(Teardown(p, e)) => TeardownHits(s.rows, p, e)
    case ByServer(ToolCancel(u)) => ToolHits(s.rows, u)
    case ByServer(Reap(u)) => ActiveHits(s.rows, u)
    case _ => {}
  }

  // ------------------------------------------------------------------------------ invariant

  /** Every deployment that a task or a record names has its row, or had it until it was deleted. */
  ghost predicate NamesOk(s: State) {
    && s.gone !! s.rows.Keys
    && s.started <= s.rows.Keys + s.gone && s.signalled <= s.rows.Keys + s.gone
    && forall t :: t in s.tasks ==> s.tasks[t].uuid in s.rows.Keys + s.gone
  }

  ghost predicate TasksOk(s: State) {
    forall t :: t in s.tasks && s.tasks[t].uuid in s.rows ==> s.rows[s.tasks[t].uuid].project == s.tasks[t].project
  }

  ghost predicate LocksOk(s: State) {
    && (forall p :: p in s.starts ==> s.starts[p] in s.tasks && s.tasks[s.starts[p]].project == p && InStart(s.tasks[s.starts[p]].pc))
    && (forall t :: t in s.tasks && InStart(s.tasks[t].pc) ==> s.tasks[t].project in s.starts && s.starts[s.tasks[t].project] == t)
  }

  ghost predicate SlotsOk(s: State) {
    && (forall k :: k in s.slots ==> s.slots[k] in s.tasks && s.tasks[s.slots[k]].node == k && InSlot(s.tasks[s.slots[k]].pc))
    && (forall t :: t in s.tasks && InSlot(s.tasks[t].pc) ==>
          s.tasks[t].node in s.slots && s.slots[s.tasks[t].node] == t)
  }

  /** Every receiver a task holds is counted by its channel, and only that task's deployment can own the sender. */
  ghost predicate ReceiversOk(s: State) {
    forall t :: t in s.tasks && s.tasks[t].rx.Some? ==>
      var c := s.tasks[t].rx.value;
      && c in s.registry.channels
      && t in s.registry.channels[c].receivers
      && (forall u :: u in s.registry.cancels && s.registry.cancels[u] == c ==> u == s.tasks[t].uuid)
  }

  /** At most one deployment of a project and environment is both started and active. */
  ghost predicate OneStarted(s: State) {
    forall u, v :: u in s.started && v in s.started && u in s.rows && v in s.rows
      && Active(s.rows[u].status) && Active(s.rows[v].status)
      && s.rows[u].project == s.rows[v].project && s.rows[u].environment == s.rows[v].environment
      ==> u == v
  }

  ghost predicate SignalledOk(s: State) {
    forall u :: u in s.signalled && u in s.rows ==> Terminal(s.rows[u].status)
  }

  /** A build whose row was cancelled by a signalling writer can be interrupted, or its signal is on the way. */
  ghost predicate BuildsInterruptible(s: State) {
    forall t :: t in s.tasks && s.tasks[t].pc.Working? && s.tasks[t].rx.Some? && s.tasks[t].uuid in s.signalled ==>
      s.tasks[t].uuid in s.signals || Interrupts(s.registry, s.tasks[t].rx.value)
  }

  ghost predicate Inv(s: State) {
    && CancelRegistry.Valid(s.registry)
    && NamesOk(s)
    && TasksOk(s)
    && LocksOk(s)
    && SlotsOk(s)
    && ReceiversOk(s)
    && OneStarted(s)
    && SignalledOk(s)
    && BuildsInterruptible(s)
  }

  /** A process has just come up on any table: no task, no lock, no token. */
  ghost predicate Init(s: State) {
    && s.registry == Empty && s.tasks == map[] && s.starts == map[] && s.slots == map[]
    && s.signals == {} && s.reaping == {} && s.resuming == {} && s.gone == {} && s.started == {} && s.signalled == {}
  }

  lemma InitOk(s: State)
    requires Init(s)
    ensures Inv(s)
  {
  }

  // ------------------------------------------------------------------- what a step can touch

  /** `after` differs from `before` in task `t` only, whose deployment, project and node stay. */
  ghost predicate OnlyTask(before: State, after: State, t: TaskId) {
    && t in before.tasks && t in after.tasks
    && after.tasks == before.tasks[t := after.tasks[t]]
    && after.tasks[t].uuid == before.tasks[t].uuid
    && after.tasks[t].project == before.tasks[t].project
    && after.tasks[t].node == before.tasks[t].node
  }

  lemma OpTouchesOneTask(s: State, t: TaskId, op: Op)
    requires t in s.tasks && Ready(s, s.tasks[t], op) && !op.Drop?
    ensures OnlyTask(s, TaskStep(s, t, op), t)
  {
  }

  /** The ops by which a task may leave the node's queue or slot. */
  predicate MayExit(op: Op) {
    op.CheckBefore? || op.CancelWait? || op.CheckAfter? || op.MarkRunning? || op.Complete? || op.Interrupt?
  }

  lemma ExitOp(s: State, t: TaskId, op: Op)
    requires t in s.tasks && Ready(s, s.tasks[t], op) && MayExit(op)
    requires TaskStep(s, t, op).tasks[t].pc.Exited?
    ensures TaskStep(s, t, op) == Exit(s, t, TaskStep(s, t, op).tasks[t].pc.outcome)
  {
  }

  lemma OthersDoNotExit(s: State, t: TaskId, op: Op)
    requires t in s.tasks && Ready(s, s.tasks[t], op) && !op.Drop? && !MayExit(op)
    ensures !TaskStep(s, t, op).tasks[t].pc.Exited?
  {
  }

  /** A task is at `Exited` after its own op only if that op left through `Exit`. */
  lemma OpExits(s: State, t: TaskId, op: Op)
    requires t in s.tasks && Ready(s, s.tasks[t], op) && !op.Drop?
    requires TaskStep(s, t, op).tasks[t].pc.Exited?
    ensures TaskStep(s, t, op) == Exit(s, t, TaskStep(s, t, op).tasks[t].pc.outcome)
  {
    if MayExit(op) {
      ExitOp(s, t, op);
    } else {
      OthersDoNotExit(s, t, op);
    }
  }

  /**
   A row never changes project or environment and never becomes active again. One that has ended stays
   as it is, or is written as failed.
   */
  predicate RowEvolves(before: Row, after: Row) {
    && after.project == before.project && after.environment == before.environment
    && (Active(after.status) ==> Active(before.status))
    && (Terminal(before.status) ==> after == before || after == before.(status := Failed))
  }

  /** Rows evolve until they are deleted, and deleted ones do not come back. */
  ghost predicate Evolves(s: State, s': State) {
    && s.gone <= s'.gone && s'.gone !! s'.rows.Keys
    && forall u :: u in s.rows ==> if u in s'.rows then RowEvolves(s.rows[u], s'.rows[u]) else u in s'.gone
  }

  /** The ops that write rows. */
  predicate WritesRows(op: Op) {
    op.Supersede? || op.MarkRunning? || op.Finalize?
  }

  lemma WritingOp(s: State, t: TaskId, op: Op)
    requires t in s.tasks && Ready(s, s.tasks[t], op) && WritesRows(op)
    ensures TaskStep(s, t, op).gone == s.gone && TaskStep(s, t, op).rows.Keys == s.rows.Keys
    ensures forall u :: u in s.rows ==> RowEvolves(s.rows[u], TaskStep(s, t, op).rows[u])
  {
  }

  lemma OthersKeepRows(s: State, t: TaskId, op: Op)
    requires t in s.tasks && Ready(s, s.tasks[t], op) && !WritesRows(op)
    ensures TaskStep(s, t, op).gone == s.gone && TaskStep(s, t, op).rows == s.rows
  {
  }

  lemma RowsByOp(s: State, t: TaskId, op: Op)
    requires t in s.tasks && Ready(s, s.tasks[t], op)
    ensures TaskStep(s, t, op).gone == s.gone && TaskStep(s, t, op).rows.Keys == s.rows.Keys
    ensures forall u :: u in s.rows ==> RowEvolves(s.rows[u], TaskStep(s, t, op).rows[u])
  {
    if WritesRows(op) {
      WritingOp(s, t, op);
    } else {
      OthersKeepRows(s, t, op);
    }
  }

  lemma RowsByEvent(s: State, event: Event)
    requires s.gone !! s.rows.Keys && Enabled(s, ByServer(event))
    ensures Evolves(s, ServerStep(s, event))
  {
  }

  lemma RowsByStep(s: State, step: Step)
    requires s.gone !! s.rows.Keys && Enabled(s, step)
    ensures Evolves(s, Apply(s, step))
  {
    match step
    case ByTask(t, op) => RowsByOp(s, t, op);
    case ByServer(event) => RowsByEvent(s, event);
  }

  // ----------------------------------------------------------------- the invariant is inductive

  lemma RegistryByOp(s: State, t: TaskId, op: Op)
    requires CancelRegistry.Valid(s.registry)
    requires t in s.tasks && Ready(s, s.tasks[t], op)
    ensures CancelRegistry.Valid(TaskStep(s, t, op).registry)
  {
    TokensKeepValid(s.registry, s.tasks[t].uuid, t);
    if op.RegisterToken? {
      RegisterKeepsValid(s.registry, s.tasks[t].uuid, if op.keepReceiver then {t} else {});
    } else {
      OpOnRegistry(s, t, op);
    }
  }

  /** What an op other than a registration can leave of the registry. */
  lemma OpOnRegistry(s: State, t: TaskId, op: Op)
    requires t in s.tasks && Ready(s, s.tasks[t], op) && !op.RegisterToken?
    ensures TaskStep(s, t, op).registry in
              {s.registry, Unregister(s.registry, s.tasks[t].uuid), Subscribe(s.registry, s.tasks[t].uuid, t), Unsubscribe(s.registry, t)}
  {
  }

  lemma OpKeepsRecords(s: State, t: TaskId, op: Op)
    requires t in s.tasks && Ready(s, s.tasks[t], op)
    ensures TaskStep(s, t, op).started <= s.started + {s.tasks[t].uuid}
    ensures TaskStep(s, t, op).signalled <= s.signalled + s.rows.Keys
  {
  }

  lemma NamesByOp(s: State, t: TaskId, op: Op)
    requires NamesOk(s)
    requires t in s.tasks && Ready(s, s.tasks[t], op)
    ensures NamesOk(TaskStep(s, t, op))
  {
    RowsByOp(s, t, op);
    OpKeepsRecords(s, t, op);
    if !op.Drop? {
      OpTouchesOneTask(s, t, op);
    }
  }

  lemma NamesByEvent(s: State, event: Event)
    requires NamesOk(s)
    requires Enabled(s, ByServer(event))
    ensures NamesOk(ServerStep(s, event))
  {
  }

  lemma TasksByOp(s: State, t: TaskId, op: Op)
    requires TasksOk(s)
    requires t in s.tasks && Ready(s, s.tasks[t], op)
    ensures TasksOk(TaskStep(s, t, op))
  {
    RowsByOp(s, t, op);
    if !op.Drop? {
      OpTouchesOneTask(s, t, op);
    }
  }

  lemma TasksByEvent(s: State, event: Event)
    requires NamesOk(s) && TasksOk(s)
    requires Enabled(s, ByServer(event))
    ensures TasksOk(ServerStep(s, event))
  {
    RowsByEvent(s, event);
  }

  lemma LocksFrame(s: State, s': State, t: TaskId)
    requires LocksOk(s) && OnlyTask(s, s', t) && s'.starts == s.starts
    requires InStart(s'.tasks[t].pc) == InStart(s.tasks[t].pc)
    ensures LocksOk(s')
  {
  }

  lemma LocksByLockOp(s: State, t: TaskId, op: Op)
    requires LocksOk(s)
    requires t in s.tasks && Ready(s, s.tasks[t], op)
    requires op.Drop? || op.LockStart? || op.UnlockStart?
    ensures LocksOk(TaskStep(s, t, op))
  {
  }

  lemma OpKeepsStarts(s: State, t: TaskId, op: Op)
    requires t in s.tasks && Ready(s, s.tasks[t], op) && !(op.Drop? || op.LockStart? || op.UnlockStart?)
    ensures TaskStep(s, t, op).starts == s.starts
    ensures InStart(TaskStep(s, t, op).tasks[t].pc) == InStart(s.tasks[t].pc)
  {
  }

  lemma LocksByOp(s: State, t: TaskId, op: Op)
    requires LocksOk(s)
    requires t in s.tasks && Ready(s, s.tasks[t], op)
    ensures LocksOk(TaskStep(s, t, op))
  {
    if op.Drop? || op.LockStart? || op.UnlockStart? {
      LocksByLockOp(s, t, op);
    } else {
      OpTouchesOneTask(s, t, op);
      OpKeepsStarts(s, t, op);
      LocksFrame(s, TaskStep(s, t, op), t);
    }
  }

  lemma SlotsFrame(s: State, s': State, t: TaskId)
    requires SlotsOk(s) && OnlyTask(s, s', t) && s'.slots == s.slots
    requires InSlot(s'.tasks[t].pc) == InSlot(s.tasks[t].pc)
    ensures SlotsOk(s')
  {
  }

  lemma ExitKeepsSlots(s: State, t: TaskId, outcome: Outcome)
    requires SlotsOk(s) && t in s.tasks
    ensures SlotsOk(Exit(s, t, outcome))
  {
  }

  lemma SlotsBySlotOp(s: State, t: TaskId, op: Op)
    requires SlotsOk(s)
    requires t in s.tasks && Ready(s, s.tasks[t], op) && (op.Drop? || op.AcquireSlot?)
    ensures SlotsOk(TaskStep(s, t, op))
  {
  }

  lemma OpKeepsSlots(s: State, t: TaskId, op: Op)
    requires t in s.tasks && Ready(s, s.tasks[t], op) && !op.Drop? && !op.AcquireSlot?
    requires !TaskStep(s, t, op).tasks[t].pc.Exited?
    ensures TaskStep(s, t, op).slots == s.slots
    ensures InSlot(TaskStep(s, t, op).tasks[t].pc) == InSlot(s.tasks[t].pc)
  {
  }

  lemma SlotsByOp(s: State, t: TaskId, op: Op)
    requires SlotsOk(s)
    requires t in s.tasks && Ready(s, s.tasks[t], op)
    ensures SlotsOk(TaskStep(s, t, op))
  {
    if op.Drop? || op.AcquireSlot? {
      SlotsBySlotOp(s, t, op);
    } else {
      OpTouchesOneTask(s, t, op);
      var s' := TaskStep(s, t, op);
      if s'.tasks[t].pc.Exited? {
        OpExits(s, t, op);
        ExitKeepsSlots(s, t, s'.tasks[t].pc.outcome);
      } else {
        OpKeepsSlots(s, t, op);
        SlotsFrame(s, s', t);
      }
    }
  }

  predicate Spawns(event: Event) {
    event.Spawn? || event.SpawnUnrecorded?
  }

  /** Task locks and slots are untouched by the rest of the server, except that a restart frees them all. */
  lemma EventKeepsLocks(s: State, event: Event)
    requires Enabled(s, ByServer(event)) && !event.Restart?
    ensures ServerStep(s, event).starts == s.starts && ServerStep(s, event).slots == s.slots
    ensures ServerStep(s, event).tasks ==
            if Spawns(event) then s.tasks[event.task := ServerStep(s, event).tasks[event.task]] else s.tasks
    ensures Spawns(event) ==> ServerStep(s, event).tasks[event.task].pc.Spawned? && ServerStep(s, event).tasks[event.task].rx.None?
  {
  }

  lemma LocksByEvent(s: State, event: Event)
    requires LocksOk(s) && SlotsOk(s)
    requires Enabled(s, ByServer(event))
    ensures LocksOk(ServerStep(s, event)) && SlotsOk(ServerStep(s, event))
  {
    if !event.Restart? {
      EventKeepsLocks(s, event);
    }
  }

  lemma ExitKeepsReceivers(s: State, t: TaskId, outcome: Outcome)
    requires ReceiversOk(s) && t in s.tasks
    ensures ReceiversOk(Exit(s, t, outcome))
  {
  }

  lemma ReceiversFrame(s: State, s': State, t: TaskId)
    requires ReceiversOk(s) && OnlyTask(s, s', t)
    requires s'.registry == s.registry && s'.tasks[t].rx == s.tasks[t].rx
    ensures ReceiversOk(s')
  {
  }

  lemma ReceiversByTokenOp(s: State, t: TaskId, op: Op)
    requires CancelRegistry.Valid(s.registry) && ReceiversOk(s)
    requires t in s.tasks && Ready(s, s.tasks[t], op)
    requires op.Drop? || op.RegisterToken? || op.UnregisterToken? || op.UnlockStart? || op.EnterSlot?
    ensures ReceiversOk(TaskStep(s, t, op))
  {
  }

  lemma ReceiversByOp(s: State, t: TaskId, op: Op)
    requires CancelRegistry.Valid(s.registry) && ReceiversOk(s)
    requires t in s.tasks && Ready(s, s.tasks[t], op)
    ensures ReceiversOk(TaskStep(s, t, op))
  {
    if op.Drop? || op.RegisterToken? || op.UnregisterToken? || op.UnlockStart? || op.EnterSlot? {
      ReceiversByTokenOp(s, t, op);
    } else {
      OpTouchesOneTask(s, t, op);
      var s' := TaskStep(s, t, op);
      if s'.tasks[t].pc.Exited? {
        OpExits(s, t, op);
        ExitKeepsReceivers(s, t, s'.tasks[t].pc.outcome);
      } else {
        ReceiversFrame(s, s', t);
      }
    }
  }

  /** Only a delivered signal and a restart touch the registry from outside the tasks. */
  lemma EventKeepsRegistry(s: State, event: Event)
    requires Enabled(s, ByServer(event)) && !event.Deliver? && !event.Restart?
    ensures ServerStep(s, event).registry == s.registry
  {
  }

  lemma ReceiversByEvent(s: State, event: Event)
    requires CancelRegistry.Valid(s.registry) && ReceiversOk(s)
    requires Enabled(s, ByServer(event))
    ensures CancelRegistry.Valid(ServerStep(s, event).registry) && ReceiversOk(ServerStep(s, event))
  {
    if !event.Restart? {
      EventKeepsLocks(s, event);
      if !event.Deliver? {
        EventKeepsRegistry(s, event);
      }
    }
  }

  /** Once started is at most one per project and environment, only a new start could break it. */
  lemma StartedFrame(s: State, s': State)
    requires NamesOk(s) && OneStarted(s)
    requires Evolves(s, s') && s'.started == s.started
    ensures OneStarted(s')
  {
    forall u | u in s'.started && u in s'.rows
      ensures u in s.rows && RowEvolves(s.rows[u], s'.rows[u])
    {
      assert u in s.rows.Keys + s.gone;
    }
  }

  /** A start spares, of its project, its own row and what it does not hit. */
  lemma Spared(s: State, t: TaskId, u: Uuid)
    requires t in s.tasks && Ready(s, s.tasks[t], Supersede)
    requires u in s.rows && u != s.tasks[t].uuid && Active(TaskStep(s, t, Supersede).rows[u].status)
    ensures Active(s.rows[u].status)
    ensures s.rows[u].project != s.tasks[t].project || s.rows[u].environment != EnvironmentOf(s.rows, s.tasks[t].uuid)
  {
    assert u !in SupersedeHits(s.rows, s.tasks[t].project, s.tasks[t].uuid);
  }

  lemma SupersedeStarts(s: State, t: TaskId)
    requires t in s.tasks && Ready(s, s.tasks[t], Supersede)
    ensures TaskStep(s, t, Supersede).started == s.started + {s.tasks[t].uuid}
  {
  }

  lemma StartedBySupersede(s: State, t: TaskId)
    requires TasksOk(s) && OneStarted(s)
    requires t in s.tasks && Ready(s, s.tasks[t], Supersede)
    ensures OneStarted(TaskStep(s, t, Supersede))
  {
    var s' := TaskStep(s, t, Supersede);
    var mine := s.tasks[t].uuid;
    SupersedeStarts(s, t);
    RowsByOp(s, t, Supersede);
    forall u | u in s'.rows && u != mine && Active(s'.rows[u].status)
      ensures Active(s.rows[u].status)
      ensures mine in s.rows ==>
                s'.rows[u].project != s'.rows[mine].project || s'.rows[u].environment != s'.rows[mine].environment
    {
      Spared(s, t, u);
    }
  }

  lemma StartedByStep(s: State, step: Step)
    requires NamesOk(s) && TasksOk(s) && OneStarted(s)
    requires Enabled(s, step)
    ensures OneStarted(Apply(s, step))
  {
    if step.ByTask? && step.op.Supersede? {
      StartedBySupersede(s, step.task);
    } else {
      RowsByStep(s, step);
      StartedFrame(s, Apply(s, step));
    }
  }

  lemma SignalledFrame(s: State, s': State)
    requires NamesOk(s) && SignalledOk(s) && Evolves(s, s') && s'.signalled == s.signalled
    ensures SignalledOk(s')
  {
    forall u | u in s'.signalled && u in s'.rows
      ensures u in s.rows && RowEvolves(s.rows[u], s'.rows[u])
    {
      assert u in s.rows.Keys + s.gone;
    }
  }

  lemma SignalledByCancel(s: State, hits: set<Uuid>)
    requires SignalledOk(s) && hits <= s.rows.Keys
    ensures SignalledOk(CancelAll(s, hits))
  {
  }

  predicate Signals(step: Step) {
    || (step.ByTask? && step.op.Supersede?)
    || (step.ByServer? && (step.event.UserCancel? || step.event.Teardown?))
  }

  lemma OpKeepsSignalled(s: State, t: TaskId, op: Op)
    requires t in s.tasks && Ready(s, s.tasks[t], op) && !op.Supersede?
    ensures TaskStep(s, t, op).signalled == s.signalled
  {
  }

  lemma EventKeepsSignalled(s: State, event: Event)
    requires Enabled(s, ByServer(event)) && !event.UserCancel? && !event.Teardown?
    ensures ServerStep(s, event).signalled == s.signalled
  {
  }

  lemma SignalledByStep(s: State, step: Step)
    requires NamesOk(s) && SignalledOk(s)
    requires Enabled(s, step)
    ensures SignalledOk(Apply(s, step))
  {
    if Signals(step) {
      match step
      case ByTask(t, _) =>
        SignalledByCancel(Move(s, t, Superseded), SupersedeHits(s.rows, s.tasks[t].project, s.tasks[t].uuid));
      case ByServer(UserCancel(u)) => SignalledByCancel(s, CancelHits(s.rows, u));
      case ByServer(Teardown(p, e)) => SignalledByCancel(s, TeardownHits(s.rows, p, e));
    } else {
      RowsByStep(s, step);
      match step {
        case ByTask(t, op) => OpKeepsSignalled(s, t, op);
        case ByServer(event) => EventKeepsSignalled(s, event);
      }
      SignalledFrame(s, Apply(s, step));
    }
  }

  lemma ExitKeepsInterruptible(s: State, t: TaskId, outcome: Outcome)
    requires BuildsInterruptible(s) && t in s.tasks
    ensures BuildsInterruptible(Exit(s, t, outcome))
  {
  }

  lemma InterruptibleFrame(s: State, s': State, t: TaskId)
    requires BuildsInterruptible(s) && OnlyTask(s, s', t)
    requires s'.registry == s.registry && s'.signals == s.signals && s'.signalled == s.signalled
    requires s'.tasks[t].rx == s.tasks[t].rx && (s'.tasks[t].pc.Working? ==> s.tasks[t].pc.Working? || s.tasks[t].uuid !in s.signalled)
    ensures BuildsInterruptible(s')
  {
  }

  /** A raised or dropped token stays so while some task listens to it. */
  lemma InterruptibleByTokenOp(s: State, t: TaskId, op: Op)
    requires CancelRegistry.Valid(s.registry) && ReceiversOk(s) && BuildsInterruptible(s)
    requires t in s.tasks && Ready(s, s.tasks[t], op)
    requires op.Drop? || op.RegisterToken? || op.UnregisterToken? || op.UnlockStart? || op.EnterSlot?
    ensures BuildsInterruptible(TaskStep(s, t, op))
  {
  }

  lemma InterruptibleBySupersede(s: State, t: TaskId)
    requires BuildsInterruptible(s)
    requires t in s.tasks && Ready(s, s.tasks[t], Supersede)
    ensures BuildsInterruptible(TaskStep(s, t, Supersede))
  {
  }

  lemma InterruptibleByOp(s: State, t: TaskId, op: Op)
    requires CancelRegistry.Valid(s.registry) && ReceiversOk(s) && SignalledOk(s) && BuildsInterruptible(s)
    requires t in s.tasks && Ready(s, s.tasks[t], op)
    ensures BuildsInterruptible(TaskStep(s, t, op))
  {
    if op.Drop? || op.RegisterToken? || op.UnregisterToken? || op.UnlockStart? || op.EnterSlot? {
      InterruptibleByTokenOp(s, t, op);
    } else if op.Supersede? {
      InterruptibleBySupersede(s, t);
    } else {
      OpTouchesOneTask(s, t, op);
      var s' := TaskStep(s, t, op);
      if s'.tasks[t].pc.Exited? {
        OpExits(s, t, op);
        ExitKeepsInterruptible(s, t, s'.tasks[t].pc.outcome);
      } else {
        InterruptibleFrame(s, s', t);
      }
    }
  }

  lemma InterruptibleByEvent(s: State, event: Event)
    requires CancelRegistry.Valid(s.registry) && ReceiversOk(s) && BuildsInterruptible(s)
    requires Enabled(s, ByServer(event))
    ensures BuildsInterruptible(ServerStep(s, event))
  {
    if !event.Restart? {
      EventKeepsLocks(s, event);
      if !event.Deliver? {
        EventKeepsRegistry(s, event);
      }
    }
  }

  lemma StepKeepsInv(s: State, step: Step)
    requires Inv(s) && Enabled(s, step)
    ensures Inv(Apply(s, step))
  {
    StartedByStep(s, step);
    SignalledByStep(s, step);
    match step
    case ByTask(t, op) =>
      RegistryByOp(s, t, op);
      NamesByOp(s, t, op);
      TasksByOp(s, t, op);
      LocksByOp(s, t, op);
      SlotsByOp(s, t, op);
      ReceiversByOp(s, t, op);
      InterruptibleByOp(s, t, op);
    case ByServer(event) =>
      NamesByEvent(s, event);
      TasksByEvent(s, event);
      LocksByEvent(s, event);
      ReceiversByEvent(s, event);
      InterruptibleByEvent(s, event);
  }
}
