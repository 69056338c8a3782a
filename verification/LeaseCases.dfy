/** Runs of the agent-run table that end where the theorems' hypotheses stop. */
module LeaseCases {
  import opened Text
  import opened AgentRuns
  import opened LeaseRuns

  lemma Started(db: Db)
    requires db.runs == map[]
    ensures IsRun([db], [])
  {
  }

  lemma Extended(dbs: seq<Db>, steps: seq<Step>, step: Step)
    requires IsRun(dbs, steps) && Legal(dbs[|steps|], step.op)
    requires steps != [] ==> steps[|steps| - 1].now <= step.now
    requires step.op.RoutineEnds? ==> forall i :: 0 <= i < |steps| ==> !steps[i].op.RoutineEnds?
    ensures IsRun(dbs + [Apply(dbs[|steps|], step)], steps + [step])
  {
    var more, all := dbs + [Apply(dbs[|steps|], step)], steps + [step];
    forall i | 0 <= i < |all|
      ensures Follows(more, all, i)
    {
      if i < |steps| {
        assert Follows(dbs, steps, i);
      }
    }
    forall i, j | 0 <= i < j < |all|
      ensures InOrder(all, i, j) && !EndTwice(all, i, j)
    {
      if j < |steps| {
        assert InOrder(steps, i, j) && !EndTwice(steps, i, j);
      } else if i < |steps| - 1 {
        assert InOrder(steps, i, |steps| - 1);
      }
    }
  }

  // -------------------------------------------------------------------------- a paused routine

  function OneRoutine(r: string, st: Status): Db {
    Db(map[r := Run("agent", "routine-" + r, st, None, None, 0, true)], map[])
  }

  /** A routine is paused while it runs; when it ends, the pause is overwritten without any resume. */
  lemma PausedRoutineCompletes(r: string) returns (dbs: seq<Db>, steps: seq<Step>)
    ensures IsRun(dbs, steps) && |steps| == 3
    ensures forall k :: 0 <= k < |steps| ==> !steps[k].op.RestartRun?
    ensures r in dbs[2].runs && dbs[2].runs[r].status == Paused
    ensures r in dbs[3].runs && dbs[3].runs[r].status == Completed
  {
    var empty := Db(map[], map[]);
    var start, pause, end := Step(0.0, NewRun(r, "agent", "routine-" + r, Running)), Step(1.0, PauseRun(r, Running)), Step(2.0, RoutineEnds(r, Completed));
    Started(empty);
    Extended([empty], [], start);
    assert Apply(empty, start) == OneRoutine(r, Running);
    Extended([empty] + [OneRoutine(r, Running)], [] + [start], pause);
    assert Apply(OneRoutine(r, Running), pause) == OneRoutine(r, Paused);
    Extended([empty] + [OneRoutine(r, Running)] + [OneRoutine(r, Paused)], [] + [start] + [pause], end);
    assert Apply(OneRoutine(r, Paused), end) == OneRoutine(r, Completed);
    dbs := [empty] + [OneRoutine(r, Running)] + [OneRoutine(r, Paused)] + [OneRoutine(r, Completed)];
    steps := [] + [start] + [pause] + [end];
  }

  // ---------------------------------------------------------------------------- a fourth claim

  /** The table of one run, waiting or leased until `deadline`. */
  function OneRun(r: string, deadline: Option<real>, attempts: int): Db {
    var st, owner := if deadline.Some? then Running else Pending, if deadline.Some? then Some("node") else None;
    Db(map[r := Run("agent", "question", st, owner, deadline, attempts, false)], map["question" := Message(1, "agent", User)])
  }

  lemma Claiming(r: string, attempts: int, now: real)
    ensures Legal(OneRun(r, None, attempts), ClaimRun(r, "node"))
    ensures Apply(OneRun(r, None, attempts), Step(now, ClaimRun(r, "node"))) == OneRun(r, Some(now + LEASE_SECS), attempts + 1)
    ensures ClaimWins(OneRun(r, None, attempts), r)
  {
  }

  lemma Requeuing(r: string, deadline: real, attempts: int, now: real)
    requires deadline < now
    ensures Apply(OneRun(r, Some(deadline), attempts), Step(now, RecoverRequeues(false))) == OneRun(r, None, attempts)
  {
    var db := OneRun(r, Some(deadline), attempts);
    assert r in AgentRuns.RequeueHits(db, false, now);
    assert Apply(db, Step(now, RecoverRequeues(false))).runs == OneRun(r, None, attempts).runs;
  }

  lemma Failing(r: string, deadline: real, attempts: int, now: real)
    requires now <= deadline || attempts < MAX_ATTEMPTS
    ensures Apply(OneRun(r, Some(deadline), attempts), Step(now, RecoverFails(false))) == OneRun(r, Some(deadline), attempts)
  {
    var db := OneRun(r, Some(deadline), attempts);
    assert FailHits(db, false, now) == {};
    assert Apply(db, Step(now, RecoverFails(false))).runs == db.runs;
  }

  /** A claim whose owner dies, and a recovery pass whose two updates read the clock at `fails` and `requeues`. */
  function Round(r: string, claim: real, fails: real, requeues: real): seq<Step> {
    [Step(claim, ClaimRun(r, "node")), Step(fails, RecoverFails(false)), Step(requeues, RecoverRequeues(false))]
  }

  lemma AfterRound(dbs: seq<Db>, steps: seq<Step>, r: string, attempts: int, claim: real, fails: real, requeues: real)
    returns (dbs': seq<Db>, steps': seq<Step>)
    requires IsRun(dbs, steps) && dbs[|steps|] == OneRun(r, None, attempts)
    requires (steps != [] ==> steps[|steps| - 1].now <= claim) && claim <= fails <= requeues
    requires fails <= claim + LEASE_SECS < requeues || (attempts + 1 < MAX_ATTEMPTS && claim + LEASE_SECS < requeues)
    ensures IsRun(dbs', steps') && steps' == steps + Round(r, claim, fails, requeues)
    ensures dbs'[|steps'|] == OneRun(r, None, attempts + 1)
    ensures Claims(dbs', steps', r, |steps'|) == Claims(dbs, steps, r, |steps|) + 1
  {
    var round := Round(r, claim, fails, requeues);
    var held, waiting := OneRun(r, Some(claim + LEASE_SECS), attempts + 1), OneRun(r, None, attempts + 1);
    Claiming(r, attempts, claim);
    Failing(r, claim + LEASE_SECS, attempts + 1, fails);
    Requeuing(r, claim + LEASE_SECS, attempts + 1, requeues);
    Extended(dbs, steps, round[0]);
    Extended(dbs + [held], steps + [round[0]], round[1]);
    Extended(dbs + [held] + [held], steps + [round[0]] + [round[1]], round[2]);
    dbs', steps' := dbs + [held] + [held] + [waiting], steps + [round[0]] + [round[1]] + [round[2]];
    ClaimsPrefix(dbs, steps, dbs', steps', r, |steps|);
    OneClaim(dbs', steps', r, |steps|);
  }

  lemma ClaimsNext(dbs: seq<Db>, steps: seq<Step>, r: string, k: nat)
    requires k < |steps| < |dbs|
    ensures Claims(dbs, steps, r, k + 1) ==
            Claims(dbs, steps, r, k) + if Wins(dbs[k], steps[k], r) then 1 else 0
  {
  }

  lemma OneClaim(dbs: seq<Db>, steps: seq<Step>, r: string, n: nat)
    requires n + 3 <= |steps| < |dbs|
    requires steps[n].op == ClaimRun(r, "node") && ClaimWins(dbs[n], r)
    requires !steps[n + 1].op.ClaimRun? && !steps[n + 2].op.ClaimRun?
    ensures Claims(dbs, steps, r, n + 3) == Claims(dbs, steps, r, n) + 1
  {
    ClaimsNext(dbs, steps, r, n);
    ClaimsNext(dbs, steps, r, n + 1);
    ClaimsNext(dbs, steps, r, n + 2);
  }

  lemma {:induction false} ClaimsPrefix(dbs: seq<Db>, steps: seq<Step>, dbs': seq<Db>, steps': seq<Step>, r: string, k: nat)
    requires k <= |steps| < |dbs| && |steps'| < |dbs'| && dbs <= dbs' && steps <= steps'
    ensures Claims(dbs', steps', r, k) == Claims(dbs, steps, r, k)
  {
    if k > 0 {
      ClaimsPrefix(dbs, steps, dbs', steps', r, k - 1);
    }
  }

  lemma Asked(r: string) returns (dbs: seq<Db>, steps: seq<Step>)
    ensures IsRun(dbs, steps) && |steps| == 2 && dbs[2] == OneRun(r, None, 0) && steps[1].now == 0.0
    ensures forall k :: 0 <= k < |steps| ==> !steps[k].op.RestartRun?
    ensures Claims(dbs, steps, r, 2) == 0
  {
    var empty := Db(map[], map[]);
    var question := Db(map[], map["question" := Message(1, "agent", User)]);
    var ask, enqueue := Step(0.0, NewMessage("question", Message(1, "agent", User))), Step(0.0, NewRun(r, "agent", "question", Pending));
    Started(empty);
    Extended([empty], [], ask);
    assert Apply(empty, ask) == question;
    Extended([empty] + [question], [] + [ask], enqueue);
    assert Apply(question, enqueue) == OneRun(r, None, 0);
    dbs, steps := [empty] + [question] + [OneRun(r, None, 0)], [] + [ask] + [enqueue];
    assert Claims(dbs, steps, r, 0) == 0 && Claims(dbs, steps, r, 1) == 0;
  }

  /**
   Three owners in a row die, and the third lease runs out between the two clock readings of the pass:
   the run is claimed a fourth time, though nobody resumed or retried it.
   */
  lemma FourthClaim(r: string) returns (dbs: seq<Db>, steps: seq<Step>)
    ensures IsRun(dbs, steps)
    ensures forall k :: 0 <= k < |steps| ==> !steps[k].op.RestartRun?
    ensures Claims(dbs, steps, r, |steps|) == MAX_ATTEMPTS + 1
  {
    dbs, steps := Asked(r);
    dbs, steps := AfterRound(dbs, steps, r, 0, 0.0, 91.0, 91.0);
    dbs, steps := AfterRound(dbs, steps, r, 1, 91.0, 182.0, 182.0);
    dbs, steps := AfterRound(dbs, steps, r, 2, 182.0, 272.0, 272.5);
    dbs, steps := AfterRound(dbs, steps, r, 3, 272.5, 300.0, 363.0);
  }
}
