/** What holds over every run of the agent-run table: any owners, any interleaving, a clock that never goes back. */
module LeaseRuns {
  import opened Text
  import opened AgentRuns

  datatype Op =
    | NewRun(run: string, agent: string, message: string, status: Status)
    | NewMessage(uuid: string, content: Message)
    | PromoteRun(run: string)
    | ClaimRun(run: string, owner: string)
    | RenewRun(run: string, owner: string)
    | RecoverPass(boot: bool)      // both updates at one reading of the clock
    | RecoverFails(boot: bool)     // the first update alone
    | RecoverRequeues(boot: bool)  // the second update alone
    | PauseRun(run: string, seen: Status)
    | RestartRun(run: string, action: Control, message: string)
    | FinishRun(run: string, status: Status)
    | CancelRun(run: string)
    | RoutineEnds(run: string, status: Status)

  datatype Step = Step(now: real, op: Op)

  /**
   What the server's own checks let through. A run is created pending, queued or, a routine with no
   message, already running; a new message has a fresh uuid; a run is claimed or restarted only when its
   message is in the thread; a run finishes in one of the three ends, a routine in one of two.
   */
  predicate Legal(db: Db, op: Op) {
    match op
    case NewRun(_, _, m, st) => st.Pending? || st.Queued? || (st.Running? && m !in db.messages)
    case NewMessage(u, _) => !MessageTaken(db, u)
    case ClaimRun(r, _) => r in db.runs ==> Replayable(db, db.runs[r])
    case RestartRun(r, _, _) => r in db.runs ==> Replayable(db, db.runs[r])
    case FinishRun(_, st) => st.Completed? || st.Failed? || st.Cancelled?
    case RoutineEnds(r, st) => (st.Completed? || st.Failed?) && (r in db.runs ==> db.runs[r].routine)
    case _ => true
  }

  function Apply(db: Db, step: Step): Db {
    match step.op
    case NewRun(r, a, m, st) => Enqueue(db, r, a, m, st)
    case NewMessage(u, m) => AddMessage(db, u, m)
    case PromoteRun(r) => Promote(db, r)
    case ClaimRun(r, o) => Claim(db, r, o, step.now)
    case RenewRun(r, o) => Renew(db, r, o, step.now)
    case RecoverPass(boot) => Recover(db, boot, step.now, step.now)
    case RecoverFails(boot) => ReleaseAll(db, FailHits(db, boot, step.now), Failed)
    case RecoverRequeues(boot) => ReleaseAll(db, AgentRuns.RequeueHits(db, boot, step.now), Pending)
    case PauseRun(r, seen) => Pause(db, r, seen)
    case RestartRun(r, action, m) => Restart(db, r, action, m)
    case FinishRun(r, st) => Finish(db, r, st)
    case CancelRun(r) => CancelPending(db, r)
    case RoutineEnds(r, st) => RoutineEnd(db, r, st)
  }

  ghost predicate IsRun(dbs: seq<Db>, steps: seq<Step>) {
    && |dbs| == |steps| + 1
    && dbs[0].runs == map[]
    && (forall i :: 0 <= i < |steps| ==> Follows(dbs, steps, i))
    && (forall i, j :: 0 <= i < j < |steps| ==> InOrder(steps, i, j))
    && (forall i, j :: 0 <= i < j < |steps| ==> !EndTwice(steps, i, j))
  }

  ghost predicate Follows(dbs: seq<Db>, steps: seq<Step>, i: nat)
    requires i < |steps| < |dbs|
  {
    Legal(dbs[i], steps[i].op) && dbs[i + 1] == Apply(dbs[i], steps[i])
  }

  /** The clock never goes back. */
  predicate InOrder(steps: seq<Step>, i: nat, j: nat)
    requires i < |steps| && j < |steps|
  {
    steps[i].now <= steps[j].now
  }

  /** A routine ends once. */
  predicate EndTwice(steps: seq<Step>, i: nat, j: nat)
    requires i < |steps| && j < |steps|
  {
    steps[i].op.RoutineEnds? && steps[j].op.RoutineEnds? && steps[i].op.run == steps[j].op.run
  }

  // ----------------------------------------------------------------------------- invariants

  /** Owner and deadline are set together, and only while running. */
  ghost predicate LeasesOk(db: Db) {
    forall r :: r in db.runs ==>
      && (db.runs[r].owner.Some? <==> db.runs[r].deadline.Some?)
      && (db.runs[r].owner.Some? ==> db.runs[r].status.Running?)
  }

  /** A routine never has a lease or a message to replay. */
  ghost predicate RoutinesOk(db: Db) {
    forall r :: r in db.runs && db.runs[r].routine ==> db.runs[r].owner.None? && !Replayable(db, db.runs[r])
  }

  lemma StepKeepsRoutines(db: Db, step: Step)
    requires RoutinesOk(db) && Legal(db, step.op)
    ensures RoutinesOk(Apply(db, step))
  {
  }

  lemma StepKeepsLeases(db: Db, step: Step)
    requires LeasesOk(db) && RoutinesOk(db) && Legal(db, step.op)
    ensures LeasesOk(Apply(db, step))
  {
  }

  lemma MessagesFrame(db: Db, db': Db)
    requires MessagesDistinct(db) && db'.runs.Keys == db.runs.Keys
    requires forall r :: r in db.runs ==> db'.runs[r].message == db.runs[r].message
    ensures MessagesDistinct(db')
  {
  }

  lemma ReleaseKeepsMessages(db: Db, hits: set<string>, st: Status)
    ensures ReleaseAll(db, hits, st).runs.Keys == db.runs.Keys
    ensures forall r :: r in db.runs ==> ReleaseAll(db, hits, st).runs[r].message == db.runs[r].message
  {
  }

  lemma RecoverKeepsMessages(db: Db, boot: bool, now: real, later: real)
    ensures Recover(db, boot, now, later).runs.Keys == db.runs.Keys
    ensures forall r :: r in db.runs ==> Recover(db, boot, now, later).runs[r].message == db.runs[r].message
  {
    var failed := ReleaseAll(db, FailHits(db, boot, now), Failed);
    ReleaseKeepsMessages(db, FailHits(db, boot, now), Failed);
    ReleaseKeepsMessages(failed, AgentRuns.RequeueHits(failed, boot, later), Pending);
  }

  lemma StepKeepsMessages(db: Db, step: Step)
    requires !step.op.NewRun? && !step.op.RestartRun?
    ensures Apply(db, step).runs.Keys == db.runs.Keys
    ensures forall r :: r in db.runs ==> Apply(db, step).runs[r].message == db.runs[r].message
  {
    match step.op
    case RecoverPass(boot) => RecoverKeepsMessages(db, boot, step.now, step.now);
    case RecoverFails(boot) => ReleaseKeepsMessages(db, FailHits(db, boot, step.now), Failed);
    case RecoverRequeues(boot) => ReleaseKeepsMessages(db, AgentRuns.RequeueHits(db, boot, step.now), Pending);
    case _ =>
  }

  lemma NewRunKeepsMessagesDistinct(db: Db, run: string, agent: string, message: string, st: Status)
    requires MessagesDistinct(db)
    ensures MessagesDistinct(Enqueue(db, run, agent, message, st))
  {
  }

  lemma RestartKeepsMessagesDistinct(db: Db, run: string, action: Control, message: string)
    requires MessagesDistinct(db)
    ensures MessagesDistinct(Restart(db, run, action, message))
  {
  }

  /** Only a new run and a restart choose a message, and both refuse one that another run has. */
  lemma StepKeepsMessagesDistinct(db: Db, step: Step)
    requires MessagesDistinct(db)
    ensures MessagesDistinct(Apply(db, step))
  {
    match step.op
    case NewRun(r, a, m, st) => NewRunKeepsMessagesDistinct(db, r, a, m, st);
    case RestartRun(r, action, m) => RestartKeepsMessagesDistinct(db, r, action, m);
    case _ =>
      StepKeepsMessages(db, step);
      MessagesFrame(db, Apply(db, step));
  }

  /** At every point of every run: leases are whole and only running runs have one; a message has at most one run. */
  lemma {:induction false} InvariantsAlways(dbs: seq<Db>, steps: seq<Step>, k: nat)
    requires IsRun(dbs, steps) && k < |dbs|
    ensures LeasesOk(dbs[k]) && RoutinesOk(dbs[k]) && MessagesDistinct(dbs[k])
  {
    if k > 0 {
      InvariantsAlways(dbs, steps, k - 1);
      assert Follows(dbs, steps, k - 1);
      StepKeepsLeases(dbs[k - 1], steps[k - 1]);
      StepKeepsRoutines(dbs[k - 1], steps[k - 1]);
      StepKeepsMessagesDistinct(dbs[k - 1], steps[k - 1]);
    }
  }

  lemma StepKeepsThread(db: Db, step: Step, m: string)
    requires m in db.messages
    ensures m in Apply(db, step).messages && Apply(db, step).messages[m] == db.messages[m]
  {
  }

  /** The thread only grows: no message is ever changed or lost. */
  lemma {:induction false} MessagesStay(dbs: seq<Db>, steps: seq<Step>, i: nat, j: nat, m: string)
    requires IsRun(dbs, steps) && i <= j < |dbs| && m in dbs[i].messages
    ensures m in dbs[j].messages && dbs[j].messages[m] == dbs[i].messages[m]
    decreases j
  {
    if i < j {
      MessagesStay(dbs, steps, i, j - 1, m);
      assert Follows(dbs, steps, j - 1);
      StepKeepsThread(dbs[j - 1], steps[j - 1], m);
    }
  }

  // ------------------------------------------------------------------------ run state machine

  /** Where each write of one run takes it, and from where; a write of another run takes it nowhere. */
  lemma WriteMoves(db: Db, step: Step, r: string)
    requires r in db.runs
    ensures r in Apply(db, step).runs
    ensures
      var before, after, op := db.runs[r], Apply(db, step).runs[r], step.op;
      match op
      case PromoteRun(x) => after.status == if x == r && before.status == Queued then Pending else before.status
      case CancelRun(x) => after.status == if x == r && before.status in {Queued, Pending} then Cancelled else before.status
      case ClaimRun(x, _) => after.status == if x == r && before.status == Pending then Running else before.status
      case PauseRun(x, seen) =>
        after.status == if x == r && before.status == seen && seen in {Pending, Queued, Running} then Paused else before.status
      case FinishRun(x, st) => after.status == if x == r && before.status in {Pending, Queued, Running} then st else before.status
      case RoutineEnds(x, st) => after.status == if x == r && before.routine then st else before.status
      case RestartRun(x, Resume, _) => after.status == before.status || (x == r && before.status == Paused && after.status == Pending)
      case RestartRun(x, Retry, _) => after.status == before.status || (x == r && before.status == Failed && after.status == Pending)
      case NewRun(_, _, _, _) => after == before
      case NewMessage(_, _) => after == before
      case RenewRun(_, _) => after.status == before.status
      case _ => after.status == before.status || (before.status == Running && after.status in {Pending, Failed})
  {
  }


  /** What a run is doing no more: it waits for a retry or a resume, or for nothing. */
  predicate Stopped(st: Status) {
    st.Paused? || st.Failed? || st.Completed? || st.Cancelled?
  }

  /** The last write of routine `r`, to a status other than `st`. */
  predicate Overwrites(op: Op, r: string, st: Status) {
    op.RoutineEnds? && op.run == r && op.status != st
  }

  /** No row disappears. A stopped run is changed only by its restart or, a routine, by its own last write. */
  lemma StepMoves(db: Db, step: Step, r: string)
    requires LeasesOk(db) && RoutinesOk(db) && Legal(db, step.op) && r in db.runs && Stopped(db.runs[r].status)
    ensures r in Apply(db, step).runs
    ensures
      var before, after := db.runs[r], Apply(db, step).runs[r];
      && after.routine == before.routine
      && (before.routine ==> after == if Overwrites(step.op, r, before.status) then before.(status := step.op.status) else before)
      && (!before.routine && after != before ==>
            && step.op.RestartRun? && step.op.run == r && before.status == Expected(step.op.action) && after.status.Pending?
            && after.attempts == if step.op.action.Retry? then 0 else before.attempts)
  {
  }

  lemma MovesAt(dbs: seq<Db>, steps: seq<Step>, n: nat, r: string)
    requires IsRun(dbs, steps) && n < |steps| && r in dbs[n].runs && Stopped(dbs[n].runs[r].status)
    ensures r in dbs[n + 1].runs
    ensures
      var before, after, op := dbs[n].runs[r], dbs[n + 1].runs[r], steps[n].op;
      && after.routine == before.routine
      && (before.routine ==> after == if Overwrites(op, r, before.status) then before.(status := op.status) else before)
      && (before.routine && Overwrites(op, r, before.status) ==> Stopped(op.status))
      && (!before.routine && after != before ==> op.RestartRun? && op.run == r && before.status == Expected(op.action))
  {
    InvariantsAlways(dbs, steps, n);
    assert Follows(dbs, steps, n);
    StepMoves(dbs[n], steps[n], r);
  }

  /** Completed and cancelled runs that are no routines never change again. */
  lemma {:induction false} EndedForGood(dbs: seq<Db>, steps: seq<Step>, i: nat, j: nat, r: string)
    requires IsRun(dbs, steps) && i <= j < |dbs|
    requires r in dbs[i].runs && !dbs[i].runs[r].routine
    requires dbs[i].runs[r].status.Completed? || dbs[i].runs[r].status.Cancelled?
    ensures r in dbs[j].runs && dbs[j].runs[r] == dbs[i].runs[r]
    decreases j
  {
    if i < j {
      EndedForGood(dbs, steps, i, j - 1, r);
      MovesAt(dbs, steps, j - 1, r);
    }
  }

  /** A failed run, no routine, that is no longer as it was has been retried in between; a paused one, resumed. */
  lemma {:induction false} StoppedUntilRestarted(dbs: seq<Db>, steps: seq<Step>, i: nat, j: nat, r: string) returns (k: nat)
    requires IsRun(dbs, steps) && i <= j < |dbs|
    requires r in dbs[i].runs && !dbs[i].runs[r].routine && (dbs[i].runs[r].status.Failed? || dbs[i].runs[r].status.Paused?)
    requires r !in dbs[j].runs || dbs[j].runs[r] != dbs[i].runs[r]
    ensures i <= k < j && steps[k].op.RestartRun? && steps[k].op.run == r
    ensures steps[k].op.action == if dbs[i].runs[r].status.Failed? then Retry else Resume
    decreases j
  {
    if r in dbs[j - 1].runs && dbs[j - 1].runs[r] == dbs[i].runs[r] {
      MovesAt(dbs, steps, j - 1, r);
      k := j - 1;
    } else {
      k := StoppedUntilRestarted(dbs, steps, i, j - 1, r);
    }
  }

  lemma {:induction false} RoutineStays(dbs: seq<Db>, steps: seq<Step>, i: nat, j: nat, r: string)
    requires IsRun(dbs, steps) && i <= j < |dbs|
    requires r in dbs[i].runs && dbs[i].runs[r].routine && Stopped(dbs[i].runs[r].status)
    requires forall k :: i <= k < j ==> !Overwrites(steps[k].op, r, dbs[i].runs[r].status)
    ensures r in dbs[j].runs && dbs[j].runs[r] == dbs[i].runs[r]
    decreases j
  {
    if i < j {
      RoutineStays(dbs, steps, i, j - 1, r);
      MovesAt(dbs, steps, j - 1, r);
    }
  }

  /**
   A stopped routine, paused ones included, stays as it is exactly as long as its own last write, which
   no status guards, does not fall after the stop with another status.
   */
  lemma RoutineStaysIff(dbs: seq<Db>, steps: seq<Step>, i: nat, j: nat, r: string)
    requires IsRun(dbs, steps) && i <= j < |dbs|
    requires r in dbs[i].runs && dbs[i].runs[r].routine && Stopped(dbs[i].runs[r].status)
    ensures r in dbs[j].runs
    ensures dbs[j].runs[r] == dbs[i].runs[r] <==> forall k :: i <= k < j ==> !Overwrites(steps[k].op, r, dbs[i].runs[r].status)
  {
    var st := dbs[i].runs[r].status;
    if k :| i <= k < j && Overwrites(steps[k].op, r, st) {
      forall n | i <= n < j && n != k
        ensures !(steps[n].op.RoutineEnds? && steps[n].op.run == r)
      {
        assert !EndTwice(steps, n, k) || !EndTwice(steps, k, n);
      }
      RoutineStays(dbs, steps, i, k, r);
      MovesAt(dbs, steps, k, r);
      RoutineStays(dbs, steps, k + 1, j, r);
    } else {
      RoutineStays(dbs, steps, i, j, r);
    }
  }

  /** Once a renewal by an owner fails, all its renewals fail until it claims the run again. */
  lemma {:induction false} LostLeaseStaysLost(dbs: seq<Db>, steps: seq<Step>, i: nat, j: nat, r: string, o: string)
    requires IsRun(dbs, steps) && i <= j < |dbs|
    requires !RenewWins(dbs[i], r, o)
    requires forall k :: i <= k < j ==> steps[k].op != ClaimRun(r, o)
    ensures !RenewWins(dbs[j], r, o)
    decreases j
  {
    if i < j {
      LostLeaseStaysLost(dbs, steps, i, j - 1, r, o);
      InvariantsAlways(dbs, steps, j - 1);
      assert Follows(dbs, steps, j - 1);
    }
  }

  // -------------------------------------------------------------------------- lease exclusivity

  /** Step `i` gives the lease of `r` to `o`, by a winning claim or renewal. */
  ghost predicate Grants(dbs: seq<Db>, steps: seq<Step>, i: nat, r: string, o: string)
    requires i < |steps| < |dbs|
  {
    || (steps[i].op == ClaimRun(r, o) && ClaimWins(dbs[i], r))
    || (steps[i].op == RenewRun(r, o) && RenewWins(dbs[i], r, o))
  }

  /** Neither a user control nor a finish of `r`. */
  predicate Quiet(op: Op, r: string) {
    !((op.PauseRun? || op.RestartRun? || op.FinishRun? || op.RoutineEnds?) && op.run == r)
  }

  /** The time of the owner's last claim or renewal among steps `i` to `k - 1`. */
  function LastBeat(steps: seq<Step>, i: nat, k: nat, r: string, o: string): real
    requires i < k <= |steps|
    decreases k
  {
    if k == i + 1 || steps[k - 1].op == RenewRun(r, o) then steps[k - 1].now else LastBeat(steps, i, k - 1, r, o)
  }

  ghost predicate Holds(db: Db, r: string, o: string, deadline: real) {
    r in db.runs && db.runs[r].status.Running? && db.runs[r].owner == Some(o) && db.runs[r].deadline == Some(deadline)
  }

  /** A recovery pass takes the run away from its owner. */
  ghost predicate Recovered(db: Db, step: Step, r: string) {
    (step.op.RecoverPass? || step.op.RecoverFails? || step.op.RecoverRequeues?)
    && r in db.runs && r in Apply(db, step).runs && Apply(db, step).runs[r] != db.runs[r]
  }

  lemma StepKeepsLease(db: Db, step: Step, r: string, o: string, deadline: real)
    requires Holds(db, r, o, deadline) && Quiet(step.op, r) && step.now <= deadline
    ensures Holds(Apply(db, step), r, o, if step.op == RenewRun(r, o) then step.now + LEASE_SECS else deadline)
    ensures Apply(db, step).runs[r].attempts == db.runs[r].attempts
    ensures !ClaimWins(db, r) && !Recovered(db, step, r)
  {
  }

  lemma GrantHolds(db: Db, step: Step, r: string, o: string)
    requires (step.op == ClaimRun(r, o) && ClaimWins(db, r)) || (step.op == RenewRun(r, o) && RenewWins(db, r, o))
    ensures Holds(Apply(db, step), r, o, step.now + LEASE_SECS)
  {
  }

  /** Step `k` comes within ninety seconds of the owner's last beat and is neither a control nor a finish. */
  predicate InTime(steps: seq<Step>, i: nat, k: nat, r: string, o: string)
    requires i < k < |steps|
  {
    Quiet(steps[k].op, r) && steps[k].now <= LastBeat(steps, i, k, r, o) + LEASE_SECS
  }

  /** Before step `k` the run is the owner's, and the step leaves it so. */
  ghost predicate Kept(db: Db, step: Step, r: string, o: string) {
    !ClaimWins(db, r) && !Recovered(db, step, r) && RenewWins(db, r, o)
  }

  lemma OneStepKeepsRun(dbs: seq<Db>, steps: seq<Step>, i: nat, k: nat, r: string, o: string)
    requires i < k < |steps| < |dbs| && Follows(dbs, steps, k)
    requires Holds(dbs[k], r, o, LastBeat(steps, i, k, r, o) + LEASE_SECS) && InTime(steps, i, k, r, o)
    ensures Holds(dbs[k + 1], r, o, LastBeat(steps, i, k + 1, r, o) + LEASE_SECS)
    ensures Kept(dbs[k], steps[k], r, o)
  {
    StepKeepsLease(dbs[k], steps[k], r, o, LastBeat(steps, i, k, r, o) + LEASE_SECS);
  }

  /** An owner that renews within 90 seconds of its last beat keeps the run, and every renewal succeeds. */
  lemma {:induction false} RenewingOwnerKeepsRun(dbs: seq<Db>, steps: seq<Step>, i: nat, j: nat, r: string, o: string)
    requires IsRun(dbs, steps) && i < j < |dbs|
    requires Grants(dbs, steps, i, r, o)
    requires forall k :: i < k < j ==> InTime(steps, i, k, r, o)
    ensures Holds(dbs[j], r, o, LastBeat(steps, i, j, r, o) + LEASE_SECS)
    ensures forall k :: i < k < j ==> Kept(dbs[k], steps[k], r, o)
    decreases j
  {
    assert Follows(dbs, steps, j - 1);
    if j == i + 1 {
      GrantHolds(dbs[i], steps[i], r, o);
    } else {
      RenewingOwnerKeepsRun(dbs, steps, i, j - 1, r, o);
      assert InTime(steps, i, j - 1, r, o);
      OneStepKeepsRun(dbs, steps, i, j - 1, r, o);
    }
  }

  lemma {:induction false} LastBeatLater(steps: seq<Step>, i: nat, k: nat, r: string, o: string)
    requires i < k <= |steps|
    requires forall a, b :: 0 <= a < b < |steps| ==> InOrder(steps, a, b)
    ensures LastBeat(steps, i, k, r, o) >= steps[i].now
    decreases k
  {
    if k > i + 1 {
      assert InOrder(steps, i, k - 1);
      LastBeatLater(steps, i, k - 1, r, o);
    }
  }

  /** For 90 seconds after a claim or renewal nobody else claims the run and no recovery touches it. */
  lemma LeaseExclusive(dbs: seq<Db>, steps: seq<Step>, i: nat, j: nat, r: string, o: string)
    requires IsRun(dbs, steps) && i < j < |dbs|
    requires Grants(dbs, steps, i, r, o)
    requires forall k :: i < k < j ==> Quiet(steps[k].op, r) && steps[k].now <= steps[i].now + 90.0
    ensures RenewWins(dbs[j], r, o)
    ensures forall k :: i < k < j ==> Kept(dbs[k], steps[k], r, o)
  {
    forall k | i < k < j
      ensures InTime(steps, i, k, r, o)
    {
      LastBeatLater(steps, i, k, r, o);
    }
    RenewingOwnerKeepsRun(dbs, steps, i, j, r, o);
  }

  // ------------------------------------------------------------------------------- crash loop

  /** At one clock reading an expired run is requeued if it may be replayed, else failed; nothing else moves. */
  lemma RecoverySorts(db: Db, boot: bool, now: real, r: string)
    requires r in db.runs
    ensures r in Recover(db, boot, now, now).runs
    ensures
      var run := db.runs[r];
      var cut := run.status == Running && (boot || run.owner.Some?) && if run.deadline.Some? then run.deadline.value < now else boot;
      Recover(db, boot, now, now).runs[r] ==
      if !cut then run
      else run.(owner := None, deadline := None, status := if run.attempts < 3 && run.message in db.messages then Pending else Failed)
  {
  }

  /** A pass at one reading is its two updates, one after the other. */
  lemma PassIsItsUpdates(db: Db, boot: bool, now: real)
    ensures Apply(db, Step(now, RecoverPass(boot))) ==
            Apply(Apply(db, Step(now, RecoverFails(boot))), Step(now, RecoverRequeues(boot)))
  {
  }

  /** A second pass at the same reading changes nothing. */
  lemma RecoverySettles(db: Db, boot: bool, now: real)
    ensures Recover(Recover(db, boot, now, now), boot, now, now) == Recover(db, boot, now, now)
  {
  }

  /**
   The two updates read the clock separately. A run that should have been given up is requeued
   instead exactly when its lease runs out between the two readings.
   */
  lemma RequeuedPastLimit(db: Db, boot: bool, now: real, later: real, r: string)
    requires r in db.runs && now <= later && db.runs[r].status.Running? && db.runs[r].attempts >= 3
    requires db.runs[r].owner.Some? && db.runs[r].deadline.Some?
    ensures r in Recover(db, boot, now, later).runs
    ensures Recover(db, boot, now, later).runs[r].status.Pending? <==> now <= db.runs[r].deadline.value < later
  {
  }

  /** The number of winning claims of `r` among the first `k` steps. */
  ghost function Claims(dbs: seq<Db>, steps: seq<Step>, r: string, k: nat): nat
    requires k <= |steps| < |dbs|
  {
    if k == 0 then 0
    else Claims(dbs, steps, r, k - 1) + if Wins(dbs[k - 1], steps[k - 1], r) then 1 else 0
  }

  /** What a run's attempts say while nobody restarts it. */
  ghost predicate AttemptsBounded(db: Db, r: string, claims: nat) {
    if r !in db.runs then claims == 0
    else
      && db.runs[r].attempts == claims <= MAX_ATTEMPTS
      && (db.runs[r].status.Pending? || db.runs[r].status.Queued? ==> claims < MAX_ATTEMPTS)
  }

  /** The second update of a pass requeues a run that the first, at its own reading of the clock, has not given up. */
  ghost predicate LateRequeue(db: Db, step: Step, r: string) {
    step.op.RecoverRequeues? && r in AgentRuns.RequeueHits(db, step.op.boot, step.now) && db.runs[r].attempts >= MAX_ATTEMPTS
  }

  predicate Wins(db: Db, step: Step, r: string) {
    step.op.ClaimRun? && step.op.run == r && ClaimWins(db, r)
  }

  lemma StepBoundsAttempts(db: Db, step: Step, r: string, claims: nat)
    requires AttemptsBounded(db, r, claims) && Legal(db, step.op)
    requires !(step.op.RestartRun? && step.op.run == r) && !LateRequeue(db, step, r)
    ensures AttemptsBounded(Apply(db, step), r,
                            claims + if Wins(db, step, r) then 1 else 0)
  {
  }

  /** Nobody resumes or retries the run. */
  predicate Unrestarted(steps: seq<Step>, r: string, k: nat)
    requires k <= |steps|
  {
    forall i :: 0 <= i < k ==> !(steps[i].op.RestartRun? && steps[i].op.run == r)
  }

  /** A run that nobody resumes or retries and no pass requeues late is claimed at most three times, however often its owners crash. */
  lemma {:induction false} CrashLoopEnds(dbs: seq<Db>, steps: seq<Step>, r: string, k: nat)
    requires IsRun(dbs, steps) && k <= |steps|
    requires Unrestarted(steps, r, k) && forall i :: 0 <= i < k ==> !LateRequeue(dbs[i], steps[i], r)
    ensures Claims(dbs, steps, r, k) <= 3
    ensures AttemptsBounded(dbs[k], r, Claims(dbs, steps, r, k))
  {
    if k > 0 {
      CrashLoopEnds(dbs, steps, r, k - 1);
      assert Follows(dbs, steps, k - 1);
      StepBoundsAttempts(dbs[k - 1], steps[k - 1], r, Claims(dbs, steps, r, k - 1));
    }
  }

  lemma StepCounts(db: Db, step: Step, r: string)
    requires Legal(db, step.op) && !(step.op.RestartRun? && step.op.run == r)
    ensures r in db.runs ==> r in Apply(db, step).runs
    ensures r in db.runs ==> Apply(db, step).runs[r].attempts == db.runs[r].attempts + if Wins(db, step, r) then 1 else 0
    ensures r !in db.runs ==> !Wins(db, step, r) && (r in Apply(db, step).runs ==> Apply(db, step).runs[r].attempts == 0)
  {
  }

  /** Until it is restarted, a run's attempts are its claims. */
  lemma {:induction false} AttemptsAreClaims(dbs: seq<Db>, steps: seq<Step>, r: string, k: nat)
    requires IsRun(dbs, steps) && k <= |steps| && Unrestarted(steps, r, k)
    ensures Claims(dbs, steps, r, k) == if r in dbs[k].runs then dbs[k].runs[r].attempts else 0
  {
    if k > 0 {
      AttemptsAreClaims(dbs, steps, r, k - 1);
      assert Follows(dbs, steps, k - 1);
      StepCounts(dbs[k - 1], steps[k - 1], r);
    }
  }

  lemma {:induction false} ClaimsGrow(dbs: seq<Db>, steps: seq<Step>, r: string, i: nat, k: nat)
    requires i <= k <= |steps| < |dbs|
    ensures Claims(dbs, steps, r, i) <= Claims(dbs, steps, r, k)
  {
    if i < k {
      ClaimsGrow(dbs, steps, r, i, k - 1);
    }
  }

  /** The winning claim that exceeds the limit. */
  lemma {:induction false} ExceedingClaim(dbs: seq<Db>, steps: seq<Step>, r: string, k: nat) returns (j: nat)
    requires k <= |steps| < |dbs| && Claims(dbs, steps, r, k) > MAX_ATTEMPTS
    ensures j < k && Wins(dbs[j], steps[j], r) && Claims(dbs, steps, r, j) == MAX_ATTEMPTS
  {
    if Claims(dbs, steps, r, k - 1) > MAX_ATTEMPTS {
      j := ExceedingClaim(dbs, steps, r, k - 1);
    } else {
      j := k - 1;
    }
  }

  lemma FourthClaimHasCause(dbs: seq<Db>, steps: seq<Step>, r: string, k: nat) returns (i: nat, j: nat)
    requires IsRun(dbs, steps) && k <= |steps| && Unrestarted(steps, r, k) && Claims(dbs, steps, r, k) > MAX_ATTEMPTS
    ensures i < j < k && LateRequeue(dbs[i], steps[i], r) && Wins(dbs[j], steps[j], r)
  {
    j := ExceedingClaim(dbs, steps, r, k);
    if forall i :: 0 <= i < j ==> !LateRequeue(dbs[i], steps[i], r) {
      CrashLoopEnds(dbs, steps, r, j);
      assert false;
    } else {
      i :| i < j && LateRequeue(dbs[i], steps[i], r);
    }
  }

  lemma LateRequeueExceeds(dbs: seq<Db>, steps: seq<Step>, r: string, k: nat, i: nat, j: nat)
    requires IsRun(dbs, steps) && k <= |steps| && Unrestarted(steps, r, k)
    requires i < j < k && LateRequeue(dbs[i], steps[i], r) && Wins(dbs[j], steps[j], r)
    ensures Claims(dbs, steps, r, k) > MAX_ATTEMPTS
  {
    AttemptsAreClaims(dbs, steps, r, i);
    ClaimsGrow(dbs, steps, r, i, j);
    ClaimsGrow(dbs, steps, r, j + 1, k);
  }

  /** Over a run without restarts of `r`, it is claimed a fourth time exactly when it is claimed after a late requeue. */
  lemma FourthClaimIff(dbs: seq<Db>, steps: seq<Step>, r: string, k: nat)
    requires IsRun(dbs, steps) && k <= |steps| && Unrestarted(steps, r, k)
    ensures Claims(dbs, steps, r, k) >= 4 <==>
              exists i, j :: 0 <= i < j < k && LateRequeue(dbs[i], steps[i], r) && Wins(dbs[j], steps[j], r)
  {
    if Claims(dbs, steps, r, k) > MAX_ATTEMPTS {
      var i, j := FourthClaimHasCause(dbs, steps, r, k);
    }
    if i, j :| 0 <= i < j < k && LateRequeue(dbs[i], steps[i], r) && Wins(dbs[j], steps[j], r) {
      LateRequeueExceeds(dbs, steps, r, k, i, j);
    }
  }
}
