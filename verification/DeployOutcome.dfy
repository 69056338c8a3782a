/** What a task's final write says, from the way it left; and that no task waits for ever on another. */
module DeployOutcome {
  import opened Text
  import opened DeployRows
  import opened CancelRegistry
  import opened DeployProtocol
  import opened DeployRuns

  // ------------------------------------------------------------------------------- ways to leave

  /** The token that the registry has for `u` is raised. */
  predicate Flagged(r: Registry, u: Uuid) {
    u in r.cancels && r.cancels[u] in r.channels && r.channels[r.cancels[u]].value
  }

  /** The token a task listens to is raised. */
  predicate Heard(r: Registry, rx: Option<nat>) {
    rx.Some? && rx.value in r.channels && r.channels[rx.value].value
  }

  /** Its sender is gone: replaced or removed. */
  ghost predicate Orphaned(r: Registry, rx: Option<nat>) {
    rx.Some? && forall u :: u in r.cancels ==> r.cancels[u] != rx.value
  }

  /** Task `t` stops because a check finds its token raised, its wait or build is interrupted, or its row is no longer active. */
  ghost predicate StopsShort(s: State, step: Step, t: TaskId) {
    && step.ByTask? && step.task == t && t in s.tasks
    && var task := s.tasks[t];
    match step.op
    case CheckBefore => Flagged(s.registry, task.uuid) || Heard(s.registry, task.rx)
    case CancelWait => Heard(s.registry, task.rx) || Orphaned(s.registry, task.rx)
    case CheckAfter => Flagged(s.registry, task.uuid)
    case MarkRunning => task.uuid !in s.rows || s.rows[task.uuid].status !in {Queued, Running, Building}
    case Interrupt => Heard(s.registry, task.rx) || Orphaned(s.registry, task.rx)
    case _ => false
  }

  /** Step `step` settles that `t` ends with status `st`. */
  ghost predicate SettlesOn(s: State, step: Step, t: TaskId, st: Status) {
    match st
    case Success => step == ByTask(t, Complete(true))
    case Failed => step == ByTask(t, Complete(false)) || step == ByTask(t, RefuseStart)
    case Cancelled => StopsShort(s, step, t)
    case _ => false
  }

  /** Task `t` is not dropped between steps `j` and `k`. */
  predicate Undropped(steps: seq<Step>, t: TaskId, j: nat, k: nat)
    requires k <= |steps|
  {
    forall n :: j < n < k ==> steps[n] != ByTask(t, Drop) && steps[n] != ByServer(Restart)
  }

  /** Task `t` has left, its final write to come, and will write `st`. */
  predicate Due(s: State, t: TaskId, st: Status) {
    && t in s.tasks && (s.tasks[t].pc.Exited? || s.tasks[t].pc.Closed?)
    && match s.tasks[t].pc.outcome
       case Built(true) => st == Success
       case Built(false) => st == Failed
       case Aborted => st == Cancelled
  }

  lemma StopIsDue(s: State, t: TaskId, op: Op)
    requires Inv(s) && t in s.tasks && Ready(s, s.tasks[t], op) && StopsShort(s, ByTask(t, op), t)
    ensures Due(TaskStep(s, t, op), t, Cancelled)
  {
  }

  lemma SettledIsDue(s: State, step: Step, t: TaskId, st: Status)
    requires Inv(s) && Enabled(s, step) && SettlesOn(s, step, t, st)
    ensures Due(Apply(s, step), t, st)
  {
    if st.Cancelled? {
      StopIsDue(s, t, step.op);
    }
  }

  lemma MarkRunningMakesDue(s: State, t: TaskId, st: Status)
    requires t in s.tasks && Ready(s, s.tasks[t], MarkRunning) && Due(TaskStep(s, t, MarkRunning), t, st)
    ensures SettlesOn(s, ByTask(t, MarkRunning), t, st)
  {
    var u := s.tasks[t].uuid;
    assert u in s.rows && s.rows[u].status in {Queued, Running, Building} ==> u in ActiveHits(s.rows, u);
  }

  lemma OpMakesDue(s: State, t: TaskId, op: Op, st: Status)
    requires Inv(s) && t in s.tasks && Ready(s, s.tasks[t], op) && !op.Drop?
    requires Due(TaskStep(s, t, op), t, st)
    ensures Due(s, t, st) || SettlesOn(s, ByTask(t, op), t, st)
  {
    if op.MarkRunning? {
      MarkRunningMakesDue(s, t, st);
    }
  }

  lemma EventKeepsTask(s: State, event: Event, t: TaskId)
    requires Enabled(s, ByServer(event)) && !event.Restart?
    ensures t in s.tasks ==> t in ServerStep(s, event).tasks && ServerStep(s, event).tasks[t] == s.tasks[t]
    ensures t !in s.tasks && t in ServerStep(s, event).tasks ==> ServerStep(s, event).tasks[t].pc.Spawned?
  {
    EventKeepsLocks(s, event);
  }

  /** A task that is due was due before the step, or the step settled it. */
  lemma DueFrom(s: State, step: Step, t: TaskId, st: Status)
    requires Inv(s) && Enabled(s, step) && Due(Apply(s, step), t, st)
    ensures step != ByTask(t, Drop) && step != ByServer(Restart)
    ensures Due(s, t, st) || SettlesOn(s, step, t, st)
  {
    match step
    case ByTask(x, op) =>
      if !op.Drop? {
        OpTouchesOneTask(s, x, op);
        if x == t {
          OpMakesDue(s, t, op, st);
        }
      }
    case ByServer(event) =>
      if !event.Restart? {
        EventKeepsTask(s, event, t);
      }
  }

  lemma OpKeepsDue(s: State, t: TaskId, op: Op, st: Status)
    requires t in s.tasks && Ready(s, s.tasks[t], op) && !op.Drop?
    requires Due(s, t, st) || s.tasks[t].pc.Finished?
    ensures Due(TaskStep(s, t, op), t, st) || TaskStep(s, t, op).tasks[t].pc.Finished?
  {
  }

  /** A task that is due stays so until it has finished, unless it is dropped. */
  lemma DueStays(s: State, step: Step, t: TaskId, st: Status)
    requires Enabled(s, step) && step != ByTask(t, Drop) && step != ByServer(Restart)
    requires Due(s, t, st) || (t in s.tasks && s.tasks[t].pc.Finished?)
    ensures var s' := Apply(s, step); Due(s', t, st) || (t in s'.tasks && s'.tasks[t].pc.Finished?)
  {
    match step
    case ByTask(x, op) =>
      if !op.Drop? {
        OpTouchesOneTask(s, x, op);
        if x == t {
          OpKeepsDue(s, t, op, st);
        }
      }
    case ByServer(event) => EventKeepsTask(s, event, t);
  }

  lemma {:induction false} DueUntilFinal(states: seq<State>, steps: seq<Step>, j: nat, k: nat, t: TaskId, st: Status)
    requires IsRun(states, steps) && j < k < |states| && Undropped(steps, t, j, k) && SettlesOn(states[j], steps[j], t, st)
    ensures Due(states[k], t, st) || (t in states[k].tasks && states[k].tasks[t].pc.Finished?)
    decreases k
  {
    InvAlways(states, steps, j);
    assert Follows(states, steps, k - 1);
    if k == j + 1 {
      SettledIsDue(states[j], steps[j], t, st);
    } else {
      DueUntilFinal(states, steps, j, k - 1, t, st);
      DueStays(states[k - 1], steps[k - 1], t, st);
    }
  }

  lemma {:induction false} SettledBefore(states: seq<State>, steps: seq<Step>, k: nat, t: TaskId, st: Status) returns (j: nat)
    requires IsRun(states, steps) && k < |states| && Due(states[k], t, st)
    ensures j < k && Undropped(steps, t, j, k) && SettlesOn(states[j], steps[j], t, st)
  {
    assert k > 0;
    InvAlways(states, steps, k - 1);
    assert Follows(states, steps, k - 1);
    DueFrom(states[k - 1], steps[k - 1], t, st);
    if Due(states[k - 1], t, st) {
      j := SettledBefore(states, steps, k - 1, t, st);
    } else {
      j := k - 1;
    }
  }

  lemma FinalWrite(s: State, t: TaskId, st: Status)
    requires t in s.tasks && s.tasks[t].pc.Closed? && Due(s, t, st)
    requires s.tasks[t].uuid in s.rows && s.rows[s.tasks[t].uuid].status in {Queued, Running, Building}
    ensures
      var u, s' := s.tasks[t].uuid, TaskStep(s, t, Finalize);
      s'.rows == s.rows[u := s.rows[u].(status := st)]
  {
    assert ActiveHits(s.rows, s.tasks[t].uuid) == {s.tasks[t].uuid};
  }

  /**
   The final write of a task on a row that is still active changes that row alone, and to success exactly
   if the task's build completed well, to failed exactly if it completed badly or the start was refused,
   and to cancelled exactly if the task stopped short; each time without the task being dropped since.
   */
  lemma FinalWriteIff(states: seq<State>, steps: seq<Step>, k: nat, t: TaskId, st: Status)
    requires IsRun(states, steps) && k < |steps| && steps[k] == ByTask(t, Finalize) && t in states[k].tasks
    requires
      var u := states[k].tasks[t].uuid;
      u in states[k].rows && states[k].rows[u].status in {Queued, Running, Building}
    ensures
      var u := states[k].tasks[t].uuid;
      && u in states[k + 1].rows && states[k + 1].rows == states[k].rows[u := states[k + 1].rows[u]]
      && states[k + 1].rows[u] == states[k].rows[u].(status := states[k + 1].rows[u].status)
      && (states[k + 1].rows[u].status == st <==>
            exists j :: 0 <= j < k && Undropped(steps, t, j, k) && SettlesOn(states[j], steps[j], t, st))
  {
    assert Follows(states, steps, k);
    var due := match states[k].tasks[t].pc.outcome case Built(true) => Success case Built(false) => Failed case Aborted => Cancelled;
    FinalWrite(states[k], t, due);
    var j := SettledBefore(states, steps, k, t, due);
    forall i | 0 <= i < k && Undropped(steps, t, i, k) && SettlesOn(states[i], steps[i], t, st)
      ensures st == due
    {
      DueUntilFinal(states, steps, i, k, t, st);
    }
  }

  /** Only a task that stopped short may leave its row to whoever ended it. */
  lemma SkipIsCancelled(states: seq<State>, steps: seq<Step>, k: nat, t: TaskId) returns (j: nat)
    requires IsRun(states, steps) && k < |steps| && steps[k] == ByTask(t, SkipFinalize)
    ensures j < k && Undropped(steps, t, j, k) && t in states[j].tasks && StopsShort(states[j], steps[j], t)
  {
    assert Follows(states, steps, k);
    j := SettledBefore(states, steps, k, t, Cancelled);
  }

  // ------------------------------------------------------------------------------- no deadlock

  /**
   A task that has not finished can take a step of its own, or it waits for the start lock or the node's
   slot, and then the task that holds it can. Nothing but the work itself is waited for.
   */
  lemma SomebodyGoesOn(s: State, t: TaskId) returns (x: TaskId, op: Op)
    requires Inv(s) && t in s.tasks && !s.tasks[t].pc.Finished?
    ensures x in s.tasks && Ready(s, s.tasks[x], op) && !op.Drop? && !op.RefuseStart? && !op.CancelWait? && !op.Interrupt?
    ensures x != t ==>
              || (s.tasks[t].pc.Spawned? && s.tasks[x].project == s.tasks[t].project && InStart(s.tasks[x].pc))
              || (s.tasks[t].pc.Waiting? && s.tasks[x].node == s.tasks[t].node && InSlot(s.tasks[x].pc))
  {
    var task := s.tasks[t];
    x := if task.pc.Spawned? && task.project in s.starts then s.starts[task.project]
         else if task.pc.Waiting? && task.node in s.slots then s.slots[task.node] else t;
    op := match s.tasks[x].pc
          case Spawned => LockStart
          case Starting => RegisterToken(true)
          case Registered => Supersede
          case Superseded => UnlockStart
          case Started => EnterSlot
          case Subscribed => CheckBefore
          case Waiting => AcquireSlot
          case Holding => CheckAfter
          case Checked => MarkRunning
          case Working => Complete(true)
          case Exited(_) => UnregisterToken
          case Closed(_) => Finalize
          case Finished => Finalize;
  }
}
