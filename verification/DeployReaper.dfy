/** When the reaper fails a deployment that a task holds: it tests for a live task first, and writes later. */
module DeployReaper {
  import opened Text
  import opened DeployRows
  import opened CancelRegistry
  import opened DeployProtocol
  import opened DeployRuns

  /** Task `t` holds a receiver of the token that the registry has for `u`. */
  predicate Listening(r: Registry, u: Uuid, t: TaskId) {
    u in r.cancels && r.cancels[u] in r.channels && t in r.channels[r.cancels[u]].receivers
  }

  /** Task `t` begins to listen to the token of `u`: it registers one and keeps its receiver, or enters the slot. */
  predicate Subscribes(s: State, step: Step, u: Uuid, t: TaskId) {
    && step.ByTask? && step.task == t && t in s.tasks && s.tasks[t].uuid == u
    && (step.op == RegisterToken(true) || (step.op.EnterSlot? && u in s.registry.cancels && s.registry.cancels[u] in s.registry.channels))
  }

  /** Task `t` leaves, or the token of `u` is removed or replaced, or everything ends. */
  predicate Stops(s: State, step: Step, s': State, u: Uuid, t: TaskId) {
    match step
    case ByTask(x, op) =>
      || (x == t && (op.UnlockStart? || op.Drop? || (MayExit(op) && t in s'.tasks && s'.tasks[t].pc.Exited?)))
      || (op.UnregisterToken? && x in s.tasks && s.tasks[x].uuid == u)
      || (op.RegisterToken? && x in s.tasks && s.tasks[x].uuid == u && !Subscribes(s, step, u, t))
    case ByServer(event) => event.Restart?
  }

  lemma TokenOpListening(s: State, x: TaskId, op: Op, u: Uuid, t: TaskId)
    requires CancelRegistry.Valid(s.registry) && x in s.tasks && Ready(s, s.tasks[x], op)
    requires op.RegisterToken? || op.EnterSlot? || op.UnregisterToken?
    ensures Listening(TaskStep(s, x, op).registry, u, t) <==>
              Subscribes(s, ByTask(x, op), u, t)
              || (Listening(s.registry, u, t) && !Stops(s, ByTask(x, op), TaskStep(s, x, op), u, t))
  {
  }

  lemma LeavingOpListening(s: State, x: TaskId, op: Op, u: Uuid, t: TaskId)
    requires x in s.tasks && Ready(s, s.tasks[x], op)
    requires op.UnlockStart? || op.Drop? || (MayExit(op) && x in TaskStep(s, x, op).tasks && TaskStep(s, x, op).tasks[x].pc.Exited?)
    ensures Listening(TaskStep(s, x, op).registry, u, t) <==> Listening(s.registry, u, t) && x != t
  {
    if MayExit(op) {
      ExitOp(s, x, op);
    }
  }

  lemma OtherOpListening(s: State, x: TaskId, op: Op)
    requires x in s.tasks && Ready(s, s.tasks[x], op)
    requires !(op.RegisterToken? || op.EnterSlot? || op.UnregisterToken? || op.UnlockStart? || op.Drop?)
    requires MayExit(op) ==> x in TaskStep(s, x, op).tasks && !TaskStep(s, x, op).tasks[x].pc.Exited?
    ensures TaskStep(s, x, op).registry == s.registry
  {
  }

  /** A task listens after a step exactly when the step made it, or it did already and the step did not stop it. */
  lemma OpListening(s: State, x: TaskId, op: Op, u: Uuid, t: TaskId)
    requires CancelRegistry.Valid(s.registry) && x in s.tasks && Ready(s, s.tasks[x], op)
    ensures Listening(TaskStep(s, x, op).registry, u, t) <==>
              Subscribes(s, ByTask(x, op), u, t)
              || (Listening(s.registry, u, t) && !Stops(s, ByTask(x, op), TaskStep(s, x, op), u, t))
  {
    if op.RegisterToken? || op.EnterSlot? || op.UnregisterToken? {
      TokenOpListening(s, x, op, u, t);
    } else {
      if !op.Drop? {
        OpTouchesOneTask(s, x, op);
      }
      if op.UnlockStart? || op.Drop? || (MayExit(op) && TaskStep(s, x, op).tasks[x].pc.Exited?) {
        LeavingOpListening(s, x, op, u, t);
      } else {
        OtherOpListening(s, x, op);
      }
    }
  }

  lemma EventListening(s: State, event: Event, u: Uuid, t: TaskId)
    requires Enabled(s, ByServer(event))
    ensures Listening(ServerStep(s, event).registry, u, t) <==> Listening(s.registry, u, t) && !event.Restart?
  {
    if !event.Deliver? && !event.Restart? {
      EventKeepsRegistry(s, event);
    }
  }

  lemma StepListening(states: seq<State>, steps: seq<Step>, n: nat, u: Uuid, t: TaskId)
    requires IsRun(states, steps) && n < |steps|
    ensures Listening(states[n + 1].registry, u, t) <==>
              Subscribes(states[n], steps[n], u, t)
              || (Listening(states[n].registry, u, t) && !Stops(states[n], steps[n], states[n + 1], u, t))
  {
    InvAlways(states, steps, n);
    assert Follows(states, steps, n);
    match steps[n]
    case ByTask(x, op) => OpListening(states[n], x, op, u, t);
    case ByServer(event) => EventListening(states[n], event, u, t);
  }

  /** Task `t` began to listen at step `m`, and nothing has stopped it before step `k`. */
  ghost predicate ListensFrom(states: seq<State>, steps: seq<Step>, m: nat, k: nat, u: Uuid, t: TaskId)
    requires k <= |steps| < |states|
  {
    && m < k && Subscribes(states[m], steps[m], u, t)
    && forall n :: m < n < k ==> !Stops(states[n], steps[n], states[n + 1], u, t)
  }

  lemma {:induction false} StillListening(states: seq<State>, steps: seq<Step>, m: nat, k: nat, u: Uuid, t: TaskId)
    requires IsRun(states, steps) && k < |states| && ListensFrom(states, steps, m, k, u, t)
    ensures Listening(states[k].registry, u, t)
  {
    StepListening(states, steps, k - 1, u, t);
    if k > m + 1 {
      StillListening(states, steps, m, k - 1, u, t);
    }
  }

  lemma {:induction false} BeganToListen(states: seq<State>, steps: seq<Step>, i: nat, k: nat, u: Uuid, t: TaskId) returns (m: nat)
    requires IsRun(states, steps) && i < k < |states|
    requires !Listening(states[i].registry, u, t) && Listening(states[k].registry, u, t)
    ensures i <= m && ListensFrom(states, steps, m, k, u, t)
  {
    StepListening(states, steps, k - 1, u, t);
    if Subscribes(states[k - 1], steps[k - 1], u, t) {
      m := k - 1;
    } else {
      m := BeganToListen(states, steps, i, k - 1, u, t);
    }
  }

  lemma OpKeepsReaping(s: State, t: TaskId, op: Op)
    requires t in s.tasks && Ready(s, s.tasks[t], op)
    ensures TaskStep(s, t, op).reaping == s.reaping
  {
  }

  lemma ReapTestAt(s: State, step: Step, u: Uuid)
    requires Enabled(s, step) && u in Apply(s, step).reaping && u !in s.reaping
    ensures step == ByServer(ReapTest(u)) && !HasLiveTask(s.registry, u)
  {
    match step
    case ByTask(t, op) => OpKeepsReaping(s, t, op);
    case ByServer(_) =>
  }

  lemma {:induction false} ReapTested(states: seq<State>, steps: seq<Step>, k: nat, u: Uuid) returns (i: nat)
    requires IsRun(states, steps) && k < |states| && u in states[k].reaping
    ensures i < k && steps[i] == ByServer(ReapTest(u)) && !HasLiveTask(states[i].registry, u)
    ensures forall n :: i < n < k ==> steps[n] != ByServer(Restart)
  {
    if u in states[k - 1].reaping {
      assert Follows(states, steps, k - 1);
      i := ReapTested(states, steps, k - 1, u);
    } else {
      i := k - 1;
      assert Follows(states, steps, i);
      ReapTestAt(states[i], steps[i], u);
    }
  }

  /**
   The reaper fails only deployments that it found without a live task. At its write a task does hold the
   deployment exactly when some task began to listen to its token after the test, and has since then not
   left the start section or the slot or been dropped, nor the token been replaced or removed, nor the
   process restarted.
   */
  lemma ReapHitsLiveTaskIff(states: seq<State>, steps: seq<Step>, k: nat, u: Uuid) returns (i: nat)
    requires IsRun(states, steps) && k < |steps| && steps[k] == ByServer(Reap(u))
    ensures i < k && steps[i] == ByServer(ReapTest(u)) && !HasLiveTask(states[i].registry, u)
    ensures forall n :: i < n < k ==> steps[n] != ByServer(Restart)
    ensures HasLiveTask(states[k].registry, u) <==> exists t, m :: i < m && ListensFrom(states, steps, m, k, u, t)
  {
    assert Follows(states, steps, k);
    i := ReapTested(states, steps, k, u);
    var r := states[k].registry;
    if HasLiveTask(r, u) {
      var t :| t in r.channels[r.cancels[u]].receivers;
      assert Listening(r, u, t) && !Listening(states[i].registry, u, t);
      var m := BeganToListen(states, steps, i, k, u, t);
      assert m != i;
    }
    forall t, m | i < m && ListensFrom(states, steps, m, k, u, t)
      ensures HasLiveTask(r, u)
    {
      StillListening(states, steps, m, k, u, t);
    }
  }
}
