/** What holds over every run of the deploy queue, whatever the interleaving. */
module DeployRuns {
  import opened Text
  import opened DeployRows
  import opened CancelRegistry
  import opened DeployProtocol

  /** `states` is what the steps produce from a freshly booted process on any table. */
  ghost predicate IsRun(states: seq<State>, steps: seq<Step>) {
    && |states| == |steps| + 1
    && Init(states[0])
    && forall i :: 0 <= i < |steps| ==> Follows(states, steps, i)
  }

  ghost predicate Follows(states: seq<State>, steps: seq<Step>, i: nat)
    requires i < |steps| < |states|
  {
    Enabled(states[i], steps[i]) && states[i + 1] == Apply(states[i], steps[i])
  }

  lemma {:induction false} InvAlways(states: seq<State>, steps: seq<Step>, k: nat)
    requires IsRun(states, steps) && k < |states|
    ensures Inv(states[k])
  {
    if k == 0 {
      InitOk(states[0]);
    } else {
      InvAlways(states, steps, k - 1);
      assert Follows(states, steps, k - 1);
      StepKeepsInv(states[k - 1], steps[k - 1]);
    }
  }

  lemma EvolveTransitive(a: State, b: State, c: State)
    requires Evolves(a, b) && Evolves(b, c)
    ensures Evolves(a, c)
  {
  }

  /** Along a run no row changes project or environment, becomes active again or comes back once deleted. */
  lemma {:induction false} RowsAlong(states: seq<State>, steps: seq<Step>, i: nat, j: nat)
    requires IsRun(states, steps) && i <= j < |states|
    ensures Evolves(states[i], states[j])
    decreases j - i
  {
    InvAlways(states, steps, i);
    if i < j {
      RowsAlong(states, steps, i, j - 1);
      InvAlways(states, steps, j - 1);
      assert Follows(states, steps, j - 1);
      RowsByStep(states[j - 1], steps[j - 1]);
      EvolveTransitive(states[i], states[j - 1], states[j]);
    }
  }

  /** At every point, a project and environment has at most one deployment that is started and active. */
  lemma OneStartedActive(states: seq<State>, steps: seq<Step>, k: nat, u: Uuid, v: Uuid)
    requires IsRun(states, steps) && k < |states|
    requires u in states[k].started && v in states[k].started && u in states[k].rows && v in states[k].rows
    ensures
      var a, b := states[k].rows[u], states[k].rows[v];
      a.status in {Queued, Running, Building} && b.status in {Queued, Running, Building} && a.project == b.project && a.environment == b.environment ==> u == v
  {
    InvAlways(states, steps, k);
  }

  /**
   A start changes exactly the other active rows of its project and environment. A start without a row of
   its own, deleted or never inserted, takes production for its environment.
   */
  lemma StartStaysInEnvironment(states: seq<State>, steps: seq<Step>, k: nat, t: TaskId, v: Uuid)
    requires IsRun(states, steps) && k < |steps| && steps[k] == ByTask(t, Supersede)
    requires v in states[k].rows
    ensures t in states[k].tasks
    ensures
      var mine, before := states[k].tasks[t].uuid, states[k].rows[v];
      && v in states[k + 1].rows
      && (mine in states[k].rows ==>
            (states[k + 1].rows[v] != before <==>
              && v != mine && before.status in {Queued, Running, Building}
              && before.project == states[k].rows[mine].project && before.environment == states[k].rows[mine].environment))
      && (mine !in states[k].rows ==>
            (states[k + 1].rows[v] != before <==>
              before.status in {Queued, Running, Building} && before.project == states[k].tasks[t].project && before.environment == "production"))
      && (states[k + 1].rows[v] != before ==> states[k + 1].rows[v] == before.(status := Cancelled))
  {
    InvAlways(states, steps, k);
    assert Follows(states, steps, k);
  }

  /** Two builds never overlap on a node. */
  lemma BuildsExcludeEachOther(states: seq<State>, steps: seq<Step>, k: nat, t: TaskId, t': TaskId)
    requires IsRun(states, steps) && k < |states|
    requires t in states[k].tasks && t' in states[k].tasks
    requires states[k].tasks[t].pc.Working? && states[k].tasks[t'].pc.Working?
    requires states[k].tasks[t].node == states[k].tasks[t'].node
    ensures t == t'
  {
    InvAlways(states, steps, k);
  }

  lemma OpEntersBuild(s: State, t: TaskId, op: Op)
    requires t in s.tasks && Ready(s, s.tasks[t], op) && !op.Drop? && !s.tasks[t].pc.Working?
    requires t in TaskStep(s, t, op).tasks && TaskStep(s, t, op).tasks[t].pc.Working?
    ensures op.MarkRunning? && ActiveHits(s.rows, s.tasks[t].uuid) != {}
  {
  }

  lemma OnlyMarkRunningBuilds(s: State, step: Step, t: TaskId)
    requires Enabled(s, step)
    requires var s' := Apply(s, step); t in s'.tasks && s'.tasks[t].pc.Working?
    requires t !in s.tasks || !s.tasks[t].pc.Working?
    ensures step == ByTask(t, MarkRunning) && t in s.tasks
    ensures Apply(s, step).tasks[t].uuid == s.tasks[t].uuid
    ensures ActiveHits(s.rows, s.tasks[t].uuid) != {}
  {
    match step
    case ByTask(task, op) =>
      if !op.Drop? {
        OpTouchesOneTask(s, task, op);
        OpEntersBuild(s, t, op);
      }
    case ByServer(_) =>
  }

  /**
   A build begins only at the mark-running step, while its task holds the node's slot, on a row that
   is active at that very step and running after it.
   */
  lemma BuildBeginsOnActiveRow(states: seq<State>, steps: seq<Step>, k: nat, t: TaskId)
    requires IsRun(states, steps) && k < |steps|
    requires t in states[k + 1].tasks && states[k + 1].tasks[t].pc.Working?
    requires t !in states[k].tasks || !states[k].tasks[t].pc.Working?
    ensures steps[k] == ByTask(t, MarkRunning)
    ensures t in states[k].tasks && states[k + 1].tasks[t].uuid == states[k].tasks[t].uuid
    ensures
      var task := states[k].tasks[t];
      && task.node in states[k].slots && states[k].slots[task.node] == t
      && task.node in states[k + 1].slots && states[k + 1].slots[task.node] == t
      && task.uuid in states[k].rows && Active(states[k].rows[task.uuid].status)
      && task.uuid in states[k + 1].rows && states[k + 1].rows[task.uuid].status == Running
  {
    InvAlways(states, steps, k);
    InvAlways(states, steps, k + 1);
    assert Follows(states, steps, k);
    OnlyMarkRunningBuilds(states[k], steps[k], t);
  }

  /** Once a row has ended, no build of it ever begins, whether or not its cancel signal was received. */
  lemma NoBuildOnEndedRow(states: seq<State>, steps: seq<Step>, i: nat, k: nat, t: TaskId)
    requires IsRun(states, steps) && i <= k < |steps|
    requires t in states[k + 1].tasks && states[k + 1].tasks[t].pc.Working?
    requires states[k + 1].tasks[t].uuid in states[i].rows && states[i].rows[states[k + 1].tasks[t].uuid].status in {Success, Failed, Cancelled}
    ensures t in states[k].tasks && states[k].tasks[t].pc.Working?
  {
    if t !in states[k].tasks || !states[k].tasks[t].pc.Working? {
      BuildBeginsOnActiveRow(states, steps, k, t);
      RowsAlong(states, steps, i, k);
      assert false;
    }
  }

  /** What each write of the rest of the server does to a row. */
  lemma ServerWrites(s: State, event: Event, u: Uuid)
    requires Enabled(s, ByServer(event)) && u in s.rows
    ensures
      var row, rows := s.rows[u], ServerStep(s, event).rows;
      match event
      case UserCancel(v) =>
        u in rows && rows[u] == if u == v && row.status in {Queued, Running, Building, Pending, Deploying} then row.(status := Cancelled) else row
      case Teardown(p, e) =>
        u in rows
        && rows[u] == if row.project == p && row.environment == e && row.status in {Queued, Running, Building, Pending, Deploying}
                      then row.(status := Cancelled) else row
      case ToolCancel(v) => u in rows && rows[u] == if u == v && row.status in {Queued, Running, Deploying} then row.(status := Cancelled) else row
      case Reap(v) => u in rows && rows[u] == if u == v && row.status in {Queued, Running, Building} then row.(status := Failed) else row
      case Claim(v) => u in rows && rows[u] == if u == v && row.status == Queued then row.(status := Running) else row
      case Requeue => u in rows && rows[u] == if row.status in {Running, Building} then row.(status := Queued) else row
      case FailMissing(v) => u in rows && rows[u] == if u == v then row.(status := Failed) else row
      case Delete(v) => if u == v then u !in rows && row.status in {Success, Failed, Cancelled} else u in rows && rows[u] == row
      case _ => u in rows && rows[u] == row
  {
  }

  /** The write of the resume that finds no project, on a row with another status than failed. */
  predicate Overwrites(step: Step, u: Uuid, st: Status) {
    step == ByServer(FailMissing(u)) && st != Failed
  }

  lemma OpKeepsEnded(s: State, t: TaskId, op: Op, u: Uuid)
    requires t in s.tasks && Ready(s, s.tasks[t], op) && u in s.rows && Terminal(s.rows[u].status)
    ensures TaskStep(s, t, op).rows[u] == s.rows[u]
  {
  }

  lemma EventKeepsEnded(s: State, event: Event, u: Uuid)
    requires Enabled(s, ByServer(event)) && u in s.rows && Terminal(s.rows[u].status)
    ensures u in ServerStep(s, event).rows ==>
              ServerStep(s, event).rows[u] ==
              if Overwrites(ByServer(event), u, s.rows[u].status) then s.rows[u].(status := Failed) else s.rows[u]
  {
  }

  lemma EndedStep(states: seq<State>, steps: seq<Step>, n: nat, u: Uuid)
    requires IsRun(states, steps) && n < |steps|
    requires u in states[n].rows && u in states[n + 1].rows && Terminal(states[n].rows[u].status)
    ensures states[n + 1].rows[u] ==
            if Overwrites(steps[n], u, states[n].rows[u].status) then states[n].rows[u].(status := Failed) else states[n].rows[u]
  {
    assert Follows(states, steps, n);
    match steps[n]
    case ByTask(t, op) => OpKeepsEnded(states[n], t, op, u);
    case ByServer(event) => EventKeepsEnded(states[n], event, u);
  }

  lemma StillThere(states: seq<State>, steps: seq<Step>, i: nat, n: nat, j: nat, u: Uuid)
    requires IsRun(states, steps) && i <= n <= j < |states| && u in states[i].rows && u in states[j].rows
    ensures u in states[n].rows
  {
    RowsAlong(states, steps, i, n);
    RowsAlong(states, steps, n, j);
  }

  /**
   As long as its row is not deleted, a deployment that has ended stays ended. It stays as it ended exactly
   as long as the resume after a restart does not write it as failed for want of a project.
   */
  lemma {:induction false} EndIsFinal(states: seq<State>, steps: seq<Step>, i: nat, j: nat, u: Uuid)
    requires IsRun(states, steps) && i <= j < |states|
    requires u in states[i].rows && u in states[j].rows && states[i].rows[u].status in {Success, Failed, Cancelled}
    ensures states[j].rows[u].status in {Success, Failed, Cancelled}
    ensures states[j].rows[u] == states[i].rows[u] <==>
              forall k :: i <= k < j ==> !Overwrites(steps[k], u, states[i].rows[u].status)
    ensures states[j].rows[u] != states[i].rows[u] ==> states[j].rows[u] == states[i].rows[u].(status := Failed)
    decreases j
  {
    if i < j {
      StillThere(states, steps, i, j - 1, j, u);
      EndIsFinal(states, steps, i, j - 1, u);
      EndedStep(states, steps, j - 1, u);
    }
  }

  ghost predicate Ends(before: Rows, after: Rows, u: Uuid) {
    u in before && u in after && !Terminal(before[u].status) && Terminal(after[u].status)
  }

  lemma OpReportsEnd(s: State, t: TaskId, op: Op, u: Uuid)
    requires t in s.tasks && Ready(s, s.tasks[t], op) && u in s.rows
    ensures u in Reports(s, ByTask(t, op)) <==> Ends(s.rows, TaskStep(s, t, op).rows, u)
  {
  }

  lemma EventReportsEnd(s: State, event: Event, u: Uuid)
    requires Enabled(s, ByServer(event)) && u in s.rows
    ensures u in Reports(s, ByServer(event)) <==> Ends(s.rows, ServerStep(s, event).rows, u) && event != FailMissing(u)
  {
  }

  /** A writer is told that it ended a row exactly when its step ended it; only the resume that finds no project is told nothing. */
  lemma ReportIsTheEndingWrite(s: State, step: Step, u: Uuid)
    requires Enabled(s, step) && u in s.rows
    ensures u in Reports(s, step) <==> Ends(s.rows, Apply(s, step).rows, u) && step != ByServer(FailMissing(u))
  {
    match step
    case ByTask(t, op) => OpReportsEnd(s, t, op, u);
    case ByServer(event) => EventReportsEnd(s, event, u);
  }

  /** At most one of supersede, user cancel, teardown, tool cancel, reap and finalise is ever told that it ended a row. */
  lemma ReportedOnce(states: seq<State>, steps: seq<Step>, i: nat, j: nat)
    requires IsRun(states, steps) && i < j < |steps|
    ensures Enabled(states[i], steps[i]) && Enabled(states[j], steps[j])
    ensures Reports(states[i], steps[i]) !! Reports(states[j], steps[j])
  {
    assert Follows(states, steps, i);
    assert Follows(states, steps, j);
    forall u | u in Reports(states[i], steps[i])
      ensures u !in Reports(states[j], steps[j])
    {
      ReportsKnown(states[i], steps[i], u);
      ReportIsTheEndingWrite(states[i], steps[i], u);
      if u in states[j].rows {
        EndIsFinal(states, steps, i + 1, j, u);
        ReportIsTheEndingWrite(states[j], steps[j], u);
      } else if u in Reports(states[j], steps[j]) {
        ReportsKnown(states[j], steps[j], u);
      }
    }
  }

  lemma ReportsKnown(s: State, step: Step, u: Uuid)
    requires Enabled(s, step) && u in Reports(s, step)
    ensures u in s.rows
  {
  }

  /** A superseded deployment never counts as a success: its build can end only a row that stays ended. */
  lemma SupersededNeverSucceeds(states: seq<State>, steps: seq<Step>, i: nat, j: nat, t: TaskId, u: Uuid)
    requires IsRun(states, steps) && i < j < |states|
    requires steps[i] == ByTask(t, Supersede) && t in states[i].tasks
    requires u in SupersedeHits(states[i].rows, states[i].tasks[t].project, states[i].tasks[t].uuid)
    requires u in states[j].rows
    ensures states[j].rows[u].status == Cancelled || states[j].rows[u].status == Failed
    ensures states[j].rows[u].status == Failed ==> exists k :: i < k < j && steps[k] == ByServer(FailMissing(u))
  {
    assert Follows(states, steps, i);
    EndIsFinal(states, steps, i + 1, j, u);
  }

  // --------------------------------------------------------------------- what an end says

  /** The only writes that end a row with each of the three statuses. */
  predicate EndExplained(s: State, step: Step, u: Uuid, st: Status) {
    match step
    case ByTask(t, Finalize) =>
      && t in s.tasks && s.tasks[t].uuid == u && s.tasks[t].pc.Closed?
      && (st == Success <==> s.tasks[t].pc.outcome == Built(true)) && (st == Failed <==> s.tasks[t].pc.outcome == Built(false))
      && (st == Cancelled <==> s.tasks[t].pc.outcome == Aborted)
    case ByTask(t, Supersede) => t in s.tasks && s.tasks[t].uuid != u && st == Cancelled
    case ByServer(UserCancel(v)) => v == u && st == Cancelled
    case ByServer(Teardown(_, _)) => st == Cancelled
    case ByServer(ToolCancel(v)) => v == u && st == Cancelled
    case ByServer(Reap(v)) => v == u && st == Failed
    case ByServer(FailMissing(v)) => v == u && st == Failed
    case _ => false
  }

  lemma EndIsExplained(s: State, step: Step, u: Uuid)
    requires Enabled(s, step) && u in s.rows && Ends(s.rows, Apply(s, step).rows, u)
    ensures EndExplained(s, step, u, Apply(s, step).rows[u].status)
  {
    ReportIsTheEndingWrite(s, step, u);
    if step != ByServer(FailMissing(u)) {
      ReportsExplained(s, step, u);
    }
  }

  lemma ReportsExplained(s: State, step: Step, u: Uuid)
    requires Enabled(s, step) && u in Reports(s, step) && u in s.rows
    ensures u in Apply(s, step).rows && EndExplained(s, step, u, Apply(s, step).rows[u].status)
  {
  }

  predicate ReportsBuilt(pc: Pc) {
    pc == Exited(Built(true)) || pc == Closed(Built(true))
  }

  lemma OpReportsBuilt(s: State, t: TaskId, op: Op)
    requires t in s.tasks && Ready(s, s.tasks[t], op) && !op.Drop?
    requires ReportsBuilt(TaskStep(s, t, op).tasks[t].pc)
    ensures ReportsBuilt(s.tasks[t].pc) || (op == Complete(true) && s.tasks[t].pc.Working?)
  {
  }

  /** A step after which a task reports a successful build: its completion, or one that found it reporting already. */
  lemma StepReportsBuilt(s: State, step: Step, t: TaskId)
    requires Enabled(s, step)
    requires t in Apply(s, step).tasks && ReportsBuilt(Apply(s, step).tasks[t].pc)
    ensures t in s.tasks && s.tasks[t].uuid == Apply(s, step).tasks[t].uuid
    ensures ReportsBuilt(s.tasks[t].pc) || (step == ByTask(t, Complete(true)) && s.tasks[t].pc.Working?)
  {
    match step
    case ByTask(task, op) =>
      if !op.Drop? {
        OpTouchesOneTask(s, task, op);
        if task == t {
          OpReportsBuilt(s, t, op);
        }
      }
    case ByServer(_) =>
  }

  /** A task reports a successful build only if, at step `j`, its work completed successfully. */
  lemma {:induction false} ReportIsEarned(states: seq<State>, steps: seq<Step>, k: nat, t: TaskId) returns (j: nat)
    requires IsRun(states, steps) && k < |states|
    requires t in states[k].tasks && ReportsBuilt(states[k].tasks[t].pc)
    ensures j < k && steps[j] == ByTask(t, Complete(true))
    ensures t in states[j].tasks && states[j].tasks[t].pc.Working? && states[j].tasks[t].uuid == states[k].tasks[t].uuid
  {
    assert k > 0;
    assert Follows(states, steps, k - 1);
    StepReportsBuilt(states[k - 1], steps[k - 1], t);
    if ReportsBuilt(states[k - 1].tasks[t].pc) {
      j := ReportIsEarned(states, steps, k - 1, t);
    } else {
      j := k - 1;
    }
  }

  /**
   A deployment becomes a success only by the final write of a task whose build of that very deployment
   ran to a successful end while the task held its node.
   */
  lemma SuccessIsEarned(states: seq<State>, steps: seq<Step>, k: nat, u: Uuid) returns (t: TaskId, j: nat)
    requires IsRun(states, steps) && k < |steps|
    requires u in states[k].rows && states[k].rows[u].status != Success
    requires u in states[k + 1].rows && states[k + 1].rows[u].status == Success
    ensures steps[k] == ByTask(t, Finalize) && j < k && steps[j] == ByTask(t, Complete(true))
    ensures t in states[j].tasks && states[j].tasks[t].uuid == u && states[j].tasks[t].pc.Working?
    ensures states[j].tasks[t].node in states[j].slots && states[j].slots[states[j].tasks[t].node] == t
  {
    InvAlways(states, steps, k);
    assert Follows(states, steps, k);
    RowsByStep(states[k], steps[k]);
    EndIsExplained(states[k], steps[k], u);
    t := steps[k].task;
    j := ReportIsEarned(states, steps, k, t);
    InvAlways(states, steps, j);
  }

  /**
   At every point, a running build that listens to a token and whose row was cancelled by a start, a
   user or a teardown can be interrupted, or the signal that will make it so is still to be delivered.
   */
  lemma CancelReachesBuild(states: seq<State>, steps: seq<Step>, k: nat, t: TaskId)
    requires IsRun(states, steps) && k < |states|
    requires t in states[k].tasks && states[k].tasks[t].pc.Working? && states[k].tasks[t].rx.Some?
    requires states[k].tasks[t].uuid in states[k].signalled
    ensures states[k].tasks[t].uuid in states[k].signals || Enabled(states[k], ByTask(t, Interrupt))
  {
    InvAlways(states, steps, k);
  }
}
