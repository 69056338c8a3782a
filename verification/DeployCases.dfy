/** Runs of the deploy queue that show where a guarantee ends. */
module DeployCases {
  import opened Text
  import opened DeployRows
  import opened CancelRegistry
  import opened DeployProtocol
  import opened DeployRuns

  ghost predicate Leads(s: State, step: Step, s': State) {
    Enabled(s, step) && s' == Apply(s, step)
  }

  /** A process just up on an empty table. */
  const EmptyState := State(map[], Empty, map[], map[], map[], {}, {}, {}, {}, {}, {})

  /** States that lead from one to the next, from that start, are a run. */
  lemma LeadsAreARun(states: seq<State>, steps: seq<Step>)
    requires |states| == |steps| + 1 && states[0] == EmptyState
    requires forall n :: 0 <= n < |steps| ==> Leads(states[n], steps[n], states[n + 1])
    ensures IsRun(states, steps)
  {
    forall n | 0 <= n < |steps|
      ensures Follows(states, steps, n)
    {
      assert Leads(states[n], steps[n], states[n + 1]);
    }
  }

  // ------------------------------------------------------------------------- a reopened end

  /** One queued deployment alone in the table, as written and recorded so far. */
  function OneRow(u: Uuid, project: int, st: Status, resuming: bool, signalled: bool): State {
    var mine, told := if resuming then {u} else {}, if signalled then {u} else {};
    State(map[u := Row(project, "production", st)], Empty, map[], map[], map[], told, {}, mine, {}, {}, told)
  }

  lemma Resumed(u: Uuid, project: int)
    ensures ServerStep(OneRow(u, project, Queued, false, false), Claim(u)) == OneRow(u, project, Running, true, false)
  {
    assert ClaimHits(OneRow(u, project, Queued, false, false).rows, u) == {u};
  }

  lemma ThenCancelled(u: Uuid, project: int)
    ensures ServerStep(OneRow(u, project, Running, true, false), UserCancel(u)) == OneRow(u, project, Cancelled, true, true)
  {
    assert CancelHits(OneRow(u, project, Running, true, false).rows, u) == {u};
  }

  lemma ThenMissing(u: Uuid, project: int)
    ensures ServerStep(OneRow(u, project, Cancelled, true, true), FailMissing(u)) == OneRow(u, project, Failed, false, true)
  {
  }

  /** A deployment resumed after a restart and cancelled by the user is failed all the same when its project is gone. */
  lemma CancelledThenFailed(u: Uuid, project: int) returns (states: seq<State>, steps: seq<Step>)
    ensures IsRun(states, steps) && |steps| == 4
    ensures u in states[3].rows && states[3].rows[u].status == Cancelled
    ensures u in states[4].rows && states[4].rows[u].status == Failed
  {
    Resumed(u, project);
    ThenCancelled(u, project);
    ThenMissing(u, project);
    states := [EmptyState, OneRow(u, project, Queued, false, false), OneRow(u, project, Running, true, false),
               OneRow(u, project, Cancelled, true, true), OneRow(u, project, Failed, false, true)];
    steps := [ByServer(Insert(u, project, "production")), ByServer(Claim(u)), ByServer(UserCancel(u)), ByServer(FailMissing(u))];
    assert ServerStep(EmptyState, steps[0].event) == states[1];
    forall n | 0 <= n < 4
      ensures Follows(states, steps, n)
    {
      assert n == 0 || n == 1 || n == 2 || n == 3;
    }
  }

  // -------------------------------------------------------------------- a deployment reaped while held

  /** One queued deployment, its task `t` at `pc` with receiver `rx`. */
  function Held(t: TaskId, u: Uuid, project: int, pc: Pc, rx: Option<nat>, reaping: set<Uuid>): State {
    EmptyState.(rows := map[u := Row(project, "production", Queued)],
                tasks := map[t := Task(u, project, "default", pc, rx)],
                starts := if InStart(pc) then map[project := t] else map[],
                registry := if rx.Some? then Registry(map[u := 0], map[0 := Channel(false, {t})], 1) else Empty,
                reaping := reaping)
  }

  function ReapedSteps(t: TaskId, u: Uuid, project: int): seq<Step> {
    [ByServer(Insert(u, project, "production")), ByServer(Spawn(t, u, "")), ByServer(ReapTest(u)),
     ByTask(t, LockStart), ByTask(t, RegisterToken(true)), ByServer(Reap(u))]
  }

  function ReapedStates(t: TaskId, u: Uuid, project: int): seq<State> {
    var held := Held(t, u, project, Registered, Some(0), {u});
    [EmptyState,
     EmptyState.(rows := map[u := Row(project, "production", Queued)]),
     Held(t, u, project, Spawned, None, {}),
     Held(t, u, project, Spawned, None, {u}),
     Held(t, u, project, Starting, None, {u}),
     held,
     held.(rows := map[u := Row(project, "production", Failed)], reaping := {})]
  }

  lemma ReapedBegins(t: TaskId, u: Uuid, project: int)
    ensures
      var states, steps := ReapedStates(t, u, project), ReapedSteps(t, u, project);
      && Leads(states[0], steps[0], states[1]) && Leads(states[1], steps[1], states[2]) && Leads(states[2], steps[2], states[3])
  {
    assert NodeKey("") == "default";
  }

  lemma ReapedLocks(t: TaskId, u: Uuid, project: int)
    ensures
      var states, steps := ReapedStates(t, u, project), ReapedSteps(t, u, project);
      Leads(states[3], steps[3], states[4])
  {
  }

  lemma ReapedRegisters(t: TaskId, u: Uuid, project: int)
    ensures
      var states, steps := ReapedStates(t, u, project), ReapedSteps(t, u, project);
      Leads(states[4], steps[4], states[5])
  {
    assert Signal(Empty, {u}).channels == map[];
  }

  lemma ReapedEnds(t: TaskId, u: Uuid, project: int)
    ensures
      var states, steps := ReapedStates(t, u, project), ReapedSteps(t, u, project);
      Leads(states[5], steps[5], states[6])
  {
    assert ActiveHits(map[u := Row(project, "production", Queued)], u) == {u};
  }

  /** The reaper has found no live task when a start registers one; it fails the deployment under the task's hands. */
  lemma ReapedWhileHeld(t: TaskId, u: Uuid, project: int) returns (states: seq<State>, steps: seq<Step>)
    ensures IsRun(states, steps) && steps == ReapedSteps(t, u, project)
    ensures HasLiveTask(states[5].registry, u) && u in states[5].rows && Active(states[5].rows[u].status)
    ensures u in states[6].rows && states[6].rows[u].status == Failed
  {
    states, steps := ReapedStates(t, u, project), ReapedSteps(t, u, project);
    ReapedBegins(t, u, project);
    ReapedLocks(t, u, project);
    ReapedRegisters(t, u, project);
    ReapedEnds(t, u, project);
    forall n | 0 <= n < |steps|
      ensures Leads(states[n], steps[n], states[n + 1])
    {
      assert n == 0 || n == 1 || n == 2 || n == 3 || n == 4 || n == 5;
    }
    LeadsAreARun(states, steps);
  }

  // ------------------------------------------------------------------ a start without a row of its own

  /** A queued production deployment `v` beside the dev deployment `u`, if `dev` gives its status. */
  function Both(u: Uuid, v: Uuid, project: int, dev: Option<Status>): Rows {
    var prod := map[v := Row(project, "production", Queued)];
    if dev.Some? then prod[u := Row(project, "dev", dev.value)] else prod
  }

  function DeletedSteps(t: TaskId, u: Uuid, v: Uuid, project: int): seq<Step> {
    [ByServer(Insert(v, project, "production")), ByServer(Insert(u, project, "dev")), ByServer(Spawn(t, u, "")),
     ByServer(UserCancel(u)), ByServer(Delete(u)), ByTask(t, LockStart), ByTask(t, RegisterToken(false)), ByTask(t, Supersede)]
  }

  function DeletedStates(t: TaskId, u: Uuid, v: Uuid, project: int): seq<State> {
    var spawned := EmptyState.(rows := Both(u, v, project, Some(Queued)), tasks := map[t := Task(u, project, "default", Spawned, None)]);
    var cancelled := spawned.(rows := Both(u, v, project, Some(Cancelled)), signals := {u}, signalled := {u});
    var deleted := cancelled.(rows := Both(u, v, project, None), gone := {u});
    var locked := deleted.(tasks := map[t := Task(u, project, "default", Starting, None)], starts := map[project := t]);
    var registered := locked.(tasks := map[t := Task(u, project, "default", Registered, None)],
                              registry := Registry(map[u := 0], map[0 := Channel(false, {})], 1));
    [EmptyState,
     EmptyState.(rows := Both(u, v, project, None)),
     EmptyState.(rows := Both(u, v, project, Some(Queued))),
     spawned, cancelled, deleted, locked, registered,
     registered.(tasks := map[t := Task(u, project, "default", Superseded, None)],
                 rows := map[v := Row(project, "production", Cancelled)],
                 signals := {u, v}, signalled := {u, v}, started := {u})]
  }

  lemma DeletedBegins(t: TaskId, u: Uuid, v: Uuid, project: int)
    requires u != v
    ensures
      var states, steps := DeletedStates(t, u, v, project), DeletedSteps(t, u, v, project);
      && Leads(states[0], steps[0], states[1]) && Leads(states[1], steps[1], states[2]) && Leads(states[2], steps[2], states[3])
  {
    assert NodeKey("") == "default";
  }

  lemma DeletedCancels(t: TaskId, u: Uuid, v: Uuid, project: int)
    requires u != v
    ensures
      var states, steps := DeletedStates(t, u, v, project), DeletedSteps(t, u, v, project);
      Leads(states[3], steps[3], states[4])
  {
    assert CancelHits(Both(u, v, project, Some(Queued)), u) == {u};
  }

  lemma DeletedDeletes(t: TaskId, u: Uuid, v: Uuid, project: int)
    requires u != v
    ensures
      var states, steps := DeletedStates(t, u, v, project), DeletedSteps(t, u, v, project);
      Leads(states[4], steps[4], states[5]) && Leads(states[5], steps[5], states[6])
  {
    assert Both(u, v, project, Some(Cancelled)) - {u} == Both(u, v, project, None);
  }

  lemma DeletedRegisters(t: TaskId, u: Uuid, v: Uuid, project: int)
    ensures
      var states, steps := DeletedStates(t, u, v, project), DeletedSteps(t, u, v, project);
      Leads(states[6], steps[6], states[7])
  {
    assert Signal(Empty, {u}).channels == map[];
  }

  lemma DeletedSupersedes(t: TaskId, u: Uuid, v: Uuid, project: int)
    requires u != v
    ensures
      var states, steps := DeletedStates(t, u, v, project), DeletedSteps(t, u, v, project);
      Leads(states[7], steps[7], states[8])
  {
    assert SupersedeHits(Both(u, v, project, None), project, u) == {v};
  }

  /** A dev deployment is cancelled and deleted before its task starts; the start then cancels the project's production. */
  lemma DeletedStartCancelsProduction(t: TaskId, u: Uuid, v: Uuid, project: int) returns (states: seq<State>, steps: seq<Step>)
    requires u != v
    ensures IsRun(states, steps) && steps == DeletedSteps(t, u, v, project)
    ensures v in states[7].rows && states[7].rows[v] == Row(project, "production", Queued)
    ensures v in states[8].rows && states[8].rows[v].status == Cancelled
  {
    states, steps := DeletedStates(t, u, v, project), DeletedSteps(t, u, v, project);
    DeletedBegins(t, u, v, project);
    DeletedCancels(t, u, v, project);
    DeletedDeletes(t, u, v, project);
    DeletedRegisters(t, u, v, project);
    DeletedSupersedes(t, u, v, project);
    forall n | 0 <= n < |steps|
      ensures Leads(states[n], steps[n], states[n + 1])
    {
      assert n == 0 || n == 1 || n == 2 || n == 3 || n == 4 || n == 5 || n == 6 || n == 7;
    }
    LeadsAreARun(states, steps);
  }
}
