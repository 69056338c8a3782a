/**
 A restore inside a run: between its start and its last save other writers and the DNS loop go on, updates
 are refused or take effect without an answer.
 */
module FailoverRestore {
  import opened Text
  import opened DnsFailover
  import opened FailoverRuns
  import opened FailoverJournal

  /** A restore that starts at step `a` and comes to its last save at step `b`. */
  ghost predicate Restores(states: seq<State>, steps: seq<Step>, a: nat, b: nat)
    requires |steps| < |states|
  {
    && a < b < |steps| && steps[a].RestoreStart? && steps[b].RestoreEnd?
    && forall n :: a < n <= b ==> states[n].pc.Restoring?
  }

  /** Step `n` is the restore's turn at entry `e`. */
  predicate Turn(states: seq<State>, steps: seq<Step>, n: nat, e: Entry)
    requires n < |steps| < |states|
  {
    steps[n].RestoreNext? && states[n].pc.Restoring? && states[n].pc.todo != [] && states[n].pc.todo[0] == e
  }

  lemma RestoreBegins(states: seq<State>, steps: seq<Step>, a: nat)
    requires IsRun(states, steps) && a < |steps| && steps[a].RestoreStart?
    ensures states[a + 1].disk == states[a].disk && states[a + 1].pc == Restoring(states[a].disk, [])
  {
    assert Follows(states, steps, a);
  }

  lemma RestoreGoesOn(states: seq<State>, steps: seq<Step>, n: nat)
    requires IsRun(states, steps) && n < |steps| && states[n].pc.Restoring? && states[n + 1].pc.Restoring?
    ensures states[n + 1].disk == states[n].disk
    ensures
      var before, after := states[n].pc, states[n + 1].pc;
      if steps[n].RestoreNext? then
        && before.todo != [] && after.todo == before.todo[1..]
        && after.left == before.left + if Known(before.todo[0]) && !steps[n].update.Done? then [before.todo[0]] else []
      else after == before
  {
    assert Follows(states, steps, n);
  }

  /** In a restore the file is as it was, and what is still to do is its end. */
  lemma {:induction false} StillToDo(states: seq<State>, steps: seq<Step>, a: nat, b: nat, n: nat)
    requires IsRun(states, steps) && Restores(states, steps, a, b) && a < n <= b
    ensures states[n].disk == states[a].disk && |states[n].pc.todo| <= |states[a].disk|
    ensures states[n].pc.todo == states[a].disk[|states[a].disk| - |states[n].pc.todo|..]
  {
    if n == a + 1 {
      RestoreBegins(states, steps, a);
    } else {
      StillToDo(states, steps, a, b, n - 1);
      RestoreGoesOn(states, steps, n - 1);
    }
  }

  /** Every entry no longer to do has had its turn. */
  lemma {:induction false} TurnOf(states: seq<State>, steps: seq<Step>, a: nat, b: nat, k: nat, p: nat) returns (n: nat)
    requires IsRun(states, steps) && Restores(states, steps, a, b) && a < k <= b
    requires p + |states[k].pc.todo| < |states[a].disk|
    ensures a < n < k && Turn(states, steps, n, states[a].disk[p])
  {
    if k == a + 1 {
      RestoreBegins(states, steps, a);
      assert false;
    } else {
      StillToDo(states, steps, a, b, k - 1);
      RestoreGoesOn(states, steps, k - 1);
      if p + |states[k - 1].pc.todo| < |states[a].disk| {
        n := TurnOf(states, steps, a, b, k - 1, p);
      } else {
        n := k - 1;
      }
    }
  }

  lemma {:induction false} TodoShrinks(states: seq<State>, steps: seq<Step>, a: nat, b: nat, n: nat, k: nat)
    requires IsRun(states, steps) && Restores(states, steps, a, b) && a < n <= k <= b
    ensures |states[k].pc.todo| <= |states[n].pc.todo|
    ensures n < k && steps[n].RestoreNext? ==> |states[k].pc.todo| < |states[n].pc.todo|
  {
    if n < k {
      TodoShrinks(states, steps, a, b, n, k - 1);
      RestoreGoesOn(states, steps, k - 1);
    }
  }

  /** An entry has one turn only. */
  lemma OneTurn(states: seq<State>, steps: seq<Step>, a: nat, b: nat, n: nat, x: nat, e: Entry)
    requires IsRun(states, steps) && Restores(states, steps, a, b) && a < n < b && a < x < b
    requires Turn(states, steps, n, e) && Turn(states, steps, x, e)
    ensures n == x
  {
    InvAlways(states, steps, a);
    StillToDo(states, steps, a, b, n);
    StillToDo(states, steps, a, b, x);
    var disk := states[a].disk;
    var i, j := |disk| - |states[n].pc.todo|, |disk| - |states[x].pc.todo|;
    assert disk[i] == e && disk[j] == e;
    if n < x {
      TodoShrinks(states, steps, a, b, n, x);
    } else if x < n {
      TodoShrinks(states, steps, a, b, x, n);
    }
  }

  /** What is left over are the known entries whose update was not answered with success. */
  lemma {:induction false} LeftOver(states: seq<State>, steps: seq<Step>, a: nat, b: nat, k: nat, e: Entry)
    requires IsRun(states, steps) && Restores(states, steps, a, b) && a < k <= b
    ensures e in states[k].pc.left <==>
              exists n :: a < n < k && Turn(states, steps, n, e) && Known(e) && !steps[n].update.Done?
  {
    if k == a + 1 {
      RestoreBegins(states, steps, a);
    } else {
      LeftOver(states, steps, a, b, k - 1, e);
      RestoreGoesOn(states, steps, k - 1);
      assert Turn(states, steps, k - 1, e) <==> steps[k - 1].RestoreNext? && states[k - 1].pc.todo[0] == e;
    }
  }

  lemma LastSave(states: seq<State>, steps: seq<Step>, b: nat)
    requires IsRun(states, steps) && b < |steps| && steps[b].RestoreEnd? && states[b].pc.Restoring?
    ensures states[b].pc.todo == [] && states[b + 1].zone == states[b].zone
    ensures states[b + 1].disk == Filed(states[b].disk, states[b].pc.left, steps[b].result)
  {
    assert Follows(states, steps, b);
  }

  lemma TurnPoints(states: seq<State>, steps: seq<Step>, n: nat, e: Entry)
    requires IsRun(states, steps) && n < |steps| && Turn(states, steps, n, e) && Known(e) && !steps[n].update.Refused?
    ensures Lower(e.fqdn) == e.fqdn && Live(states[n + 1].zone, e.fqdn) == e.original
  {
    InvAlways(states, steps, n);
    assert Follows(states, steps, n);
    assert e in states[n].pc.left + states[n].pc.todo;
  }

  /**
   Over any run, whatever else happens meanwhile: every entry of the file has one turn. If its original
   is known and its update takes effect, the name points there at the end unless it has been written
   since. And once the last save is written, the file holds exactly the entries whose original is known
   and whose update was not answered with success.
   */
  lemma RestoreUndoesMoves(states: seq<State>, steps: seq<Step>, a: nat, b: nat, e: Entry) returns (n: nat)
    requires IsRun(states, steps) && Restores(states, steps, a, b) && e in states[a].disk
    ensures a < n < b && Turn(states, steps, n, e)
    ensures Known(e) && !steps[n].update.Refused? && (forall x :: n < x < b ==> !Touches(states[x], steps[x], e.fqdn)) ==>
              Live(states[b + 1].zone, e.fqdn) == e.original
    ensures steps[b].result.Written? ==> (e in states[b + 1].disk <==> Known(e) && !steps[n].update.Done?)
    ensures steps[b].result.Written? ==> forall x :: x in states[b + 1].disk ==> x in states[a].disk
  {
    var p :| 0 <= p < |states[a].disk| && states[a].disk[p] == e;
    LastSave(states, steps, b);
    n := TurnOf(states, steps, a, b, b, p);
    LeftOver(states, steps, a, b, b, e);
    forall x | a < x < b && Turn(states, steps, x, e)
      ensures x == n
    {
      OneTurn(states, steps, a, b, n, x, e);
    }
    if Known(e) && !steps[n].update.Refused? && (forall x :: n < x < b ==> !Touches(states[x], steps[x], e.fqdn)) {
      TurnPoints(states, steps, n, e);
      UntouchedThroughout(states, steps, n + 1, b, e.fqdn);
    }
    LeftWasThere(states, steps, a, b);
  }

  lemma LeftWasThere(states: seq<State>, steps: seq<Step>, a: nat, b: nat)
    requires IsRun(states, steps) && Restores(states, steps, a, b)
    ensures forall x :: x in states[b].pc.left ==> x in states[a].disk
  {
    InvAlways(states, steps, b);
    StillToDo(states, steps, a, b, b);
    assert forall x :: x in states[b].pc.left ==> x in states[b].pc.left + states[b].pc.todo;
  }

  /**
   A moved name whose turn takes effect and that nobody writes after it ends where it pointed before its
   first move exactly when the reading behind its entry found it pointing there.
   */
  lemma MovedNameReturnsIff(states: seq<State>, steps: seq<Step>, a: nat, b: nat, h: string, trail: seq<Leg>, i: nat, m: nat)
    returns (n: nat)
    requires IsRun(states, steps) && Restores(states, steps, a, b) && Lower(h) == h
    requires OnDisk(states, steps, a, h, trail) && ReadFor(states, steps, i, trail[0].taken, h) && FirstMove(states, steps, m, a, h)
    requires Live(states[i].zone, h).Some? && !IsBlank(Live(states[i].zone, h).value)
    ensures a < n < b && Get(states[a].disk, h).Some? && Turn(states, steps, n, Get(states[a].disk, h).value)
    ensures !steps[n].update.Refused? && (forall x :: n < x < b ==> !Touches(states[x], steps[x], h)) ==>
              (Live(states[b + 1].zone, h) == Live(states[m].zone, h) <==> Live(states[i].zone, h) == Live(states[m].zone, h))
  {
    InvAlways(states, steps, a);
    DiskHolds(states, steps, a, h, trail);
    ReadLive(states, steps, i, trail[0].taken, h);
    var e := Get(states[a].disk, h).value;
    n := RestoreUndoesMoves(states, steps, a, b, e);
    assert e.fqdn == h && Known(e);
  }

  lemma RestoringFrom(s: State, step: Step)
    requires Enabled(s, step) && Apply(s, step).pc.Restoring?
    ensures step.RestoreStart? || (s.pc.Restoring? && !step.Abandon? && !step.Crash? && !step.RestoreEnd?)
  {
  }

  /** Whatever a restore does belongs to one that was started, and neither ended, given up nor cut off by a crash since. */
  lemma {:induction false} RestoreBegan(states: seq<State>, steps: seq<Step>, k: nat) returns (a: nat)
    requires IsRun(states, steps) && k < |states| && states[k].pc.Restoring?
    ensures a < k && steps[a].RestoreStart? && forall n :: a < n <= k ==> states[n].pc.Restoring?
    ensures forall n :: a < n < k ==> !steps[n].Abandon? && !steps[n].Crash? && !steps[n].RestoreEnd?
  {
    assert k > 0;
    assert Follows(states, steps, k - 1);
    RestoringFrom(states[k - 1], steps[k - 1]);
    if steps[k - 1].RestoreStart? {
      a := k - 1;
    } else {
      a := RestoreBegan(states, steps, k - 1);
    }
  }
}
