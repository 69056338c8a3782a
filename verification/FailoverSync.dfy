/**
 The DNS loop against a moved name. A sync asks whether the name is overridden and the node acts as leader,
 and writes later; what it asked may no longer be true when it writes.
 */
module FailoverSync {
  import opened Text
  import opened DnsFailover
  import opened FailoverRuns
  import opened FailoverJournal

  /** Sync `id` of `h` finds no reason to leave the name alone: no entry on disk, or a node that does not act. */
  predicate Passes(s: State, step: Step, id: nat, h: string) {
    || (step.SyncStart? && step.id == id && Lower(step.fqdn) == h && Get(s.disk, h).None?)
    || (step == SyncActing(id) && id in s.syncs && s.syncs[id].name == h && !s.acting)
  }

  predicate Pending(s: State, id: nat, h: string) {
    id in s.syncs && s.syncs[id] == Sync(h, true)
  }

  /** At step `n` a sync writes `h` whose test it had passed at step `q`. */
  ghost predicate WritesAfterTest(states: seq<State>, steps: seq<Step>, q: nat, n: nat, h: string)
    requires n < |steps| < |states|
  {
    && q < n && steps[n].SyncWrite? && Passes(states[q], steps[q], steps[n].id, h)
    && forall x :: q < x <= n ==> Pending(states[x], steps[n].id, h)
  }

  lemma OpensSync(s: State, step: Step, id: nat, h: string)
    requires Enabled(s, step) && Pending(Apply(s, step), id, h) && !Pending(s, id, h)
    ensures Passes(s, step, id, h)
  {
    if step.SyncStart? {
      GetIgnoresCase(s.disk, step.fqdn, Lower(step.fqdn));
    }
  }

  lemma {:induction false} TestedAt(states: seq<State>, steps: seq<Step>, n: nat, id: nat, h: string) returns (q: nat)
    requires IsRun(states, steps) && n < |states| && Pending(states[n], id, h)
    ensures q < n && Passes(states[q], steps[q], id, h)
    ensures forall x :: q < x <= n ==> Pending(states[x], id, h)
    ensures forall x :: q <= x < n ==> !steps[x].Crash?
  {
    assert Follows(states, steps, n - 1);
    if Pending(states[n - 1], id, h) {
      q := TestedAt(states, steps, n - 1, id, h);
    } else {
      q := n - 1;
      InvAlways(states, steps, q);
      assert Follows(states, steps, q);
      OpensSync(states[q], steps[q], id, h);
    }
  }

  /**
   At step `n` the node acts, the name is not restored, the file is not torn, no one outside the DNS loop
   writes the name, and the node does not move it to another target.
   */
  predicate LeftAlone(states: seq<State>, steps: seq<Step>, n: nat, h: string, ingress: string)
    requires n < |steps| < |states|
  {
    && states[n].acting && h in states[n + 1].origin && !Tears(states[n], steps[n])
    && !(steps[n].OtherWrite? && Lower(steps[n].fqdn) == h)
    && !(Moves(states[n], steps[n], h) && states[n].pc.ingress != ingress)
  }

  lemma StaysDurable(states: seq<State>, steps: seq<Step>, n: nat, h: string, ingress: string)
    requires IsRun(states, steps) && n < |steps| && LeftAlone(states, steps, n, h, ingress) && Get(states[n].disk, h).Some?
    ensures Get(states[n + 1].disk, h).Some?
  {
    InvAlways(states, steps, n);
    assert Follows(states, steps, n);
    OriginGains(states[n], steps[n], h);
    DiskKeeps(states[n], steps[n], h);
  }

  lemma {:induction false} DurableThroughout(states: seq<State>, steps: seq<Step>, m: nat, k: nat, h: string, ingress: string)
    requires IsRun(states, steps) && m <= k < |states| && Get(states[m].disk, h).Some?
    requires forall n :: m <= n < k ==> LeftAlone(states, steps, n, h, ingress)
    ensures Get(states[k].disk, h).Some?
  {
    if m < k {
      DurableThroughout(states, steps, m, k - 1, h, ingress);
      StaysDurable(states, steps, k - 1, h, ingress);
    }
  }

  /** Only a restore takes a name out of the moved ones by writing it. */
  lemma RestoreTakesOut(s: State, update: Update, h: string)
    requires Enabled(s, RestoreNext(update)) && Touches(s, RestoreNext(update), h)
    ensures h !in Apply(s, RestoreNext(update)).origin
  {
  }

  lemma StaysStep(states: seq<State>, steps: seq<Step>, n: nat, h: string, ingress: string)
    requires IsRun(states, steps) && n < |steps| && Lower(h) == h
    requires LeftAlone(states, steps, n, h, ingress) && Live(states[n].zone, h) == Some(ingress)
    requires steps[n].SyncWrite? && Pending(states[n], steps[n].id, h) ==> steps[n].target == ingress
    ensures Live(states[n + 1].zone, h) == Some(ingress)
  {
    InvAlways(states, steps, n);
    assert Follows(states, steps, n);
    if !Touches(states[n], steps[n], h) {
      UntouchedStays(states[n], steps[n], h);
    } else if steps[n].RestoreNext? {
      RestoreTakesOut(states[n], steps[n].update, h);
    }
  }

  /** Since the move no test can be passed any more, so a sync that writes after it had passed its test before it. */
  lemma TestedBeforeMove(states: seq<State>, steps: seq<Step>, m: nat, n: nat, h: string, ingress: string) returns (q: nat)
    requires IsRun(states, steps) && m < n < |steps| && Moves(states[m], steps[m], h) && Get(states[m + 1].disk, h).Some?
    requires forall x :: m < x < n ==> LeftAlone(states, steps, x, h, ingress)
    requires steps[n].SyncWrite? && Pending(states[n], steps[n].id, h)
    ensures q < m && WritesAfterTest(states, steps, q, n, h)
    ensures forall x :: q <= x < n ==> !steps[x].Crash?
  {
    q := TestedAt(states, steps, n, steps[n].id, h);
    if q > m {
      assert LeftAlone(states, steps, q, h, ingress);
      DurableThroughout(states, steps, m + 1, q, h, ingress);
    }
  }

  lemma LateWriteShows(states: seq<State>, steps: seq<Step>, n: nat, h: string)
    requires IsRun(states, steps) && n < |steps| && Lower(h) == h && steps[n].SyncWrite? && Pending(states[n], steps[n].id, h)
    ensures Live(states[n + 1].zone, h) == Some(steps[n].target)
  {
    assert Follows(states, steps, n);
  }

  lemma MovePoints(states: seq<State>, steps: seq<Step>, m: nat, h: string)
    requires IsRun(states, steps) && m < |steps| && Moves(states[m], steps[m], h)
    ensures Lower(h) == h && Live(states[m + 1].zone, h) == Some(states[m].pc.ingress) && states[m + 1].disk == states[m].disk
  {
    InvAlways(states, steps, m);
    assert Follows(states, steps, m);
  }

  /**
   A journalled name that the node moves, while the node acts, nobody outside the DNS loop writes the name
   and it is not restored: it points here at every point up to `k` exactly when no sync that had passed its
   test before the move writes it to another target after it. No later sync can.
   */
  lemma {:induction false} OverriddenNameStaysIff(states: seq<State>, steps: seq<Step>, m: nat, k: nat, h: string)
    requires IsRun(states, steps) && m < k < |states|
    requires Moves(states[m], steps[m], h) && Get(states[m].disk, h).Some?
    requires forall n :: m < n < k ==> LeftAlone(states, steps, n, h, states[m].pc.ingress)
    ensures
      (forall n :: m < n <= k ==> Live(states[n].zone, h) == Some(states[m].pc.ingress)) <==>
      (forall q: nat, n: nat :: q < m < n < k && WritesAfterTest(states, steps, q, n, h) ==> steps[n].target == states[m].pc.ingress)
  {
    MovePoints(states, steps, m, h);
    if k > m + 1 {
      OverriddenNameStaysIff(states, steps, m, k - 1, h);
      var n, ingress := k - 1, states[m].pc.ingress;
      if steps[n].SyncWrite? && Pending(states[n], steps[n].id, h) {
        LateWriteShows(states, steps, n, h);
        var q := TestedBeforeMove(states, steps, m, n, h, ingress);
      } else if Live(states[n].zone, h) == Some(ingress) {
        StaysStep(states, steps, n, h, ingress);
      }
    }
  }

  /** What a step that may write `h` leaves there. */
  lemma WriteShows(s: State, step: Step, h: string)
    requires Inv(s) && Enabled(s, step) && Lower(h) == h && Touches(s, step, h)
    ensures
      Live(Apply(s, step).zone, h) ==
      match step
      case Point(_) => Some(s.pc.ingress)
      case RestoreNext(_) => s.pc.todo[0].original
      case SyncWrite(_, target) => Some(target)
      case OtherWrite(_, value) => value
      case _ => None
  {
    if step.RestoreNext? {
      assert s.pc.todo[0] in s.pc.left + s.pc.todo;
    }
  }

  lemma SyncFrom(s: State, step: Step, id: nat)
    requires Enabled(s, step) && id in Apply(s, step).syncs && !(step.SyncStart? && step.id == id)
    ensures id in s.syncs && !((step.SyncWrite? || step.SyncFail?) && step.id == id) && !step.Crash?
  {
  }

  /** A sync under way was begun, and has neither written nor failed nor met a crash since: it writes once at most. */
  lemma {:induction false} SyncBegan(states: seq<State>, steps: seq<Step>, k: nat, id: nat) returns (a: nat)
    requires IsRun(states, steps) && k < |states| && id in states[k].syncs
    ensures a < k && steps[a].SyncStart? && steps[a].id == id
    ensures forall n :: a < n < k ==> !((steps[n].SyncWrite? || steps[n].SyncFail?) && steps[n].id == id) && !steps[n].Crash?
  {
    assert k > 0;
    assert Follows(states, steps, k - 1);
    if steps[k - 1].SyncStart? && steps[k - 1].id == id {
      a := k - 1;
    } else {
      SyncFrom(states[k - 1], steps[k - 1], id);
      a := SyncBegan(states, steps, k - 1, id);
    }
  }

  /** Whether the node acts is what was last set. */
  lemma {:induction false} ActingIsLastSet(states: seq<State>, steps: seq<Step>, a: nat, k: nat)
    requires IsRun(states, steps) && a < k < |states| && steps[a].SetActing?
    requires forall n :: a < n < k ==> !steps[n].SetActing?
    ensures states[k].acting == steps[a].acting
    decreases k
  {
    assert Follows(states, steps, k - 1);
    if k > a + 1 {
      ActingIsLastSet(states, steps, a, k - 1);
    }
  }
}
