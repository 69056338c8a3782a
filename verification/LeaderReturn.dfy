/**
 The original leader after an outage: it remembers where the control plane's name pointed while all was
 well, and puts the name back once no interim leader acts and the name still points at a worker. Which
 workers there are, it asks anew at every tick, and takes for none when it gets no answer.
 */
module LeaderReturn {
  import opened Text
  import opened DnsFailover

  datatype Saved = Saved(fqdn: string, target: string)

  /** The saved target counts only for the name it was saved under. */
  function SavedFor(saved: Option<Saved>, fqdn: string): Option<string> {
    if saved.Some? && Lower(saved.value.fqdn) == Lower(fqdn) then Some(saved.value.target) else None
  }

  /** The file after `target` was to be remembered; a torn file reads as nothing saved. */
  function Remembered(saved: Option<Saved>, fqdn: string, target: string, result: FileWrite): Option<Saved> {
    if SavedFor(saved, fqdn) == Some(target) then saved
    else
      match result
      case Written => Some(Saved(fqdn, target))
      case Unwritten => saved
      case Torn => None
  }

  datatype World = World(zone: Zone, saved: Option<Saved>)

  /** One tick: off the listed workers the target is remembered; on one, and allowed to, the name is put back. */
  function Tick(w: World, fqdn: string, workers: seq<string>, result: FileWrite, interim: bool, ok: bool): World {
    match Live(w.zone, fqdn)
    case None => w
    case Some(live) =>
      var mine := SavedFor(w.saved, fqdn);
      if !OnWorker(workers, live) then w.(saved := Remembered(w.saved, fqdn, live, result))
      else if LeaderShouldRestore(true, interim, Some(live), workers, mine) && ok then
        w.(zone := w.zone[Lower(fqdn) := mine.value])
      else w
  }

  class LeaderNode {
    var zone: Zone
    var saved: Option<Saved>

    /**
     Nothing moves while an interim leader acts or the writes are fenced; only this name ever moves, off
     a listed worker and to the remembered target; what is remembered is the target when that is on none.
     */
    method LeaderTick(fqdn: string, workers: seq<string>, result: FileWrite, fenced: bool, interim: bool, ok: bool)
      modifies this
      ensures World(zone, saved) ==
              if fenced then World(old(zone), old(saved)) else Tick(World(old(zone), old(saved)), fqdn, workers, result, interim, ok)
      ensures fenced || interim ==> zone == old(zone)
      ensures forall h :: Live(zone, h) != Live(old(zone), h) ==>
                && Lower(h) == Lower(fqdn) && old(saved).Some? && Lower(old(saved).value.fqdn) == Lower(fqdn)
                && Live(zone, h) == Some(old(saved).value.target)
                && Live(old(zone), fqdn).Some? && exists w :: w in workers && SameTarget(w, Live(old(zone), fqdn).value)
      ensures !fenced && !interim && ok && Live(old(zone), fqdn).Some?
              && old(saved).Some? && Lower(old(saved).value.fqdn) == Lower(fqdn)
              && !SameTarget(Live(old(zone), fqdn).value, old(saved).value.target)
              && (exists w :: w in workers && SameTarget(w, Live(old(zone), fqdn).value)) ==>
                Live(zone, fqdn) == Some(old(saved).value.target)
      ensures saved != old(saved) && saved.Some? ==>
                && saved.value.fqdn == fqdn && Live(old(zone), fqdn) == Some(saved.value.target)
                && forall w :: w in workers ==> !SameTarget(w, saved.value.target)
      ensures !fenced && Live(old(zone), fqdn).Some? && result == Written
              && (forall w :: w in workers ==> !SameTarget(w, Live(old(zone), fqdn).value)) ==>
                saved.Some? && Lower(saved.value.fqdn) == Lower(fqdn) && Some(saved.value.target) == Live(old(zone), fqdn)
    {
      if fenced {
        return;
      }
      var live := Live(zone, fqdn);
      if live.None? {
        return;
      }
      var mine := SavedFor(saved, fqdn);
      if !OnWorker(workers, live.value) {
        if mine != live {
          saved := Remembered(saved, fqdn, live.value, result);
        }
        return;
      }
      if LeaderShouldRestore(true, interim, live, workers, mine) {
        if ok {
          zone := zone[Lower(fqdn) := mine.value];
        }
      }
    }
  }

  // -------------------------------------------------------------------------------- the machine

  /** Inside a tick: target read, target found on a listed worker, name about to be put back. */
  datatype Pc = Idle | Seen(live: string) | Away(live: string, workers: seq<string>, mine: Option<string>) | Returning(target: string)

  datatype State = State(world: World, pc: Pc)

  /** A tick reads, judges, asks after interim leaders and writes, one answer at a time; everybody else writes in between. */
  datatype Step =
    | Look
    | Judge(workers: seq<string>, result: FileWrite)
    | Ask(interim: bool)
    | PutBack(applied: bool)
    | Restart
    | Write(value: Option<string>)

  predicate Enabled(s: State, step: Step) {
    match step
    case Look => s.pc.Idle?
    case Judge(_, _) => s.pc.Seen?
    case Ask(_) => s.pc.Away?
    case PutBack(_) => s.pc.Returning?
    case _ => true
  }

  function Apply(s: State, fqdn: string, step: Step): State
    requires Enabled(s, step)
  {
    var w := s.world;
    match step
    case Look =>
      (match Live(w.zone, fqdn)
       case None => s
       case Some(live) => s.(pc := Seen(live)))
    case Judge(workers, result) =>
      if OnWorker(workers, s.pc.live) then s.(pc := Away(s.pc.live, workers, SavedFor(w.saved, fqdn)))
      else State(w.(saved := Remembered(w.saved, fqdn, s.pc.live, result)), Idle)
    case Ask(interim) =>
      if LeaderShouldRestore(true, interim, Some(s.pc.live), s.pc.workers, s.pc.mine) then s.(pc := Returning(s.pc.mine.value))
      else s.(pc := Idle)
    case PutBack(applied) =>
      State(if applied then w.(zone := w.zone[Lower(fqdn) := s.pc.target]) else w, Idle)
    case Restart => s.(pc := Idle)
    case Write(Some(v)) => s.(world := w.(zone := w.zone[Lower(fqdn) := v]))
    case Write(None) => s.(world := w.(zone := w.zone - {Lower(fqdn)}))
  }

  ghost predicate IsRun(states: seq<State>, fqdn: string, steps: seq<Step>) {
    && |states| == |steps| + 1
    && forall i :: 0 <= i < |steps| ==> Follows(states, fqdn, steps, i)
  }

  ghost predicate Follows(states: seq<State>, fqdn: string, steps: seq<Step>, i: nat)
    requires i < |steps| < |states|
  {
    Enabled(states[i], steps[i]) && states[i + 1] == Apply(states[i], fqdn, steps[i])
  }

  /** The steps of a tick, one after the other, as far as the tick goes. */
  function Undisturbed(s: State, fqdn: string, workers: seq<string>, result: FileWrite, interim: bool, ok: bool): State
    decreases if s.pc.Seen? then 3 else if s.pc.Away? then 2 else if s.pc.Returning? then 1 else 0
  {
    match s.pc
    case Idle => s
    case Seen(_) => Undisturbed(Apply(s, fqdn, Judge(workers, result)), fqdn, workers, result, interim, ok)
    case Away(_, _, _) => Undisturbed(Apply(s, fqdn, Ask(interim)), fqdn, workers, result, interim, ok)
    case Returning(_) => Apply(s, fqdn, PutBack(ok))
  }

  lemma ReturningEnds(w: World, fqdn: string, target: string, workers: seq<string>, result: FileWrite, interim: bool, ok: bool)
    ensures Undisturbed(State(w, Returning(target)), fqdn, workers, result, interim, ok) ==
            State(if ok then w.(zone := w.zone[Lower(fqdn) := target]) else w, Idle)
  {
  }

  lemma AwayEnds(w: World, fqdn: string, live: string, workers: seq<string>, mine: Option<string>, result: FileWrite, interim: bool, ok: bool)
    ensures Undisturbed(State(w, Away(live, workers, mine)), fqdn, workers, result, interim, ok) ==
            if LeaderShouldRestore(true, interim, Some(live), workers, mine)
            then State(if ok then w.(zone := w.zone[Lower(fqdn) := mine.value]) else w, Idle)
            else State(w, Idle)
  {
    if LeaderShouldRestore(true, interim, Some(live), workers, mine) {
      ReturningEnds(w, fqdn, mine.value, workers, result, interim, ok);
    }
  }

  /** Undisturbed, the steps of a tick have the effect of the tick. */
  lemma TickIsItsSteps(w: World, fqdn: string, workers: seq<string>, result: FileWrite, interim: bool, ok: bool)
    ensures Undisturbed(Apply(State(w, Idle), fqdn, Look), fqdn, workers, result, interim, ok) ==
            State(Tick(w, fqdn, workers, result, interim, ok), Idle)
  {
    if Live(w.zone, fqdn).Some? {
      var live := Live(w.zone, fqdn).value;
      var seen := Apply(State(w, Idle), fqdn, Look);
      assert seen == State(w, Seen(live));
      if OnWorker(workers, live) {
        assert Apply(seen, fqdn, Judge(workers, result)) == State(w, Away(live, workers, SavedFor(w.saved, fqdn)));
        AwayEnds(w, fqdn, live, workers, SavedFor(w.saved, fqdn), result, interim, ok);
      }
    }
  }

  /** Only the leader's own update and others' writes move the name, and to what they write. */
  lemma ZoneAfter(s: State, fqdn: string, step: Step)
    requires Enabled(s, step)
    ensures
      Live(Apply(s, fqdn, step).world.zone, fqdn) ==
      match step
      case PutBack(true) => Some(s.pc.target)
      case Write(value) => value
      case _ => Live(s.world.zone, fqdn)
  {
  }

  // ------------------------------------------------------------------------ what is remembered

  /** The target remembered is one of the real workers. */
  predicate RemembersWorker(s: State, fqdn: string, nodes: seq<string>) {
    SavedFor(s.world.saved, fqdn).Some? && OnWorker(nodes, SavedFor(s.world.saved, fqdn).value)
  }

  /** The tick saw the name on a real worker that its own list leaves out. */
  predicate Misses(s: State, step: Step, nodes: seq<string>) {
    step.Judge? && s.pc.Seen? && OnWorker(nodes, s.pc.live) && !OnWorker(step.workers, s.pc.live)
  }

  predicate Mistakes(s: State, step: Step, nodes: seq<string>) {
    Misses(s, step, nodes) && step.result.Written?
  }

  lemma OthersKeepMemory(s: State, fqdn: string, step: Step)
    requires Enabled(s, step) && !step.Judge?
    ensures Apply(s, fqdn, step).world.saved == s.world.saved
  {
  }

  lemma JudgeRemembers(s: State, fqdn: string, workers: seq<string>, result: FileWrite)
    requires s.pc.Seen?
    ensures Apply(s, fqdn, Judge(workers, result)).world.saved ==
            if OnWorker(workers, s.pc.live) then s.world.saved else Remembered(s.world.saved, fqdn, s.pc.live, result)
  {
  }

  /** What is remembered after a target was to be written down: that target, what was before, or nothing. */
  lemma RememberedIs(saved: Option<Saved>, fqdn: string, target: string, result: FileWrite)
    ensures SavedFor(Remembered(saved, fqdn, target, result), fqdn) ==
            if result.Written? then Some(target)
            else if result.Torn? && SavedFor(saved, fqdn) != Some(target) then None else SavedFor(saved, fqdn)
  {
  }

  lemma StepRemembers(s: State, fqdn: string, step: Step, nodes: seq<string>)
    requires Enabled(s, step)
    ensures Mistakes(s, step, nodes) ==> RemembersWorker(Apply(s, fqdn, step), fqdn, nodes)
    ensures RemembersWorker(Apply(s, fqdn, step), fqdn, nodes) ==> RemembersWorker(s, fqdn, nodes) || Mistakes(s, step, nodes)
  {
    if step.Judge? {
      JudgeRemembers(s, fqdn, step.workers, step.result);
      RememberedIs(s.world.saved, fqdn, s.pc.live, step.result);
    } else {
      OthersKeepMemory(s, fqdn, step);
    }
  }

  lemma {:induction false} MistakeBehind(states: seq<State>, fqdn: string, steps: seq<Step>, nodes: seq<string>, k: nat) returns (n: nat)
    requires IsRun(states, fqdn, steps) && !RemembersWorker(states[0], fqdn, nodes)
    requires k < |states| && RemembersWorker(states[k], fqdn, nodes)
    ensures n < k && Mistakes(states[n], steps[n], nodes)
  {
    assert Follows(states, fqdn, steps, k - 1);
    StepRemembers(states[k - 1], fqdn, steps[k - 1], nodes);
    if Mistakes(states[k - 1], steps[k - 1], nodes) {
      n := k - 1;
    } else {
      n := MistakeBehind(states, fqdn, steps, nodes, k - 1);
    }
  }

  /**
   Whatever is written in between, a real worker's target comes to be remembered in a run exactly when some
   tick saw the name on a real worker that was missing from its list, and wrote that down.
   */
  lemma RemembersWorkerIff(states: seq<State>, fqdn: string, steps: seq<Step>, nodes: seq<string>)
    requires IsRun(states, fqdn, steps) && !RemembersWorker(states[0], fqdn, nodes)
    ensures (exists k :: 0 <= k < |states| && RemembersWorker(states[k], fqdn, nodes)) <==>
            (exists n :: 0 <= n < |steps| && Mistakes(states[n], steps[n], nodes))
  {
    if k :| 0 <= k < |states| && RemembersWorker(states[k], fqdn, nodes) {
      var n := MistakeBehind(states, fqdn, steps, nodes, k);
    }
    if n :| 0 <= n < |steps| && Mistakes(states[n], steps[n], nodes) {
      assert Follows(states, fqdn, steps, n);
      StepRemembers(states[n], fqdn, steps[n], nodes);
      assert RemembersWorker(states[n + 1], fqdn, nodes);
    }
  }

  // ---------------------------------------------------------------------------- the way home

  /** Nobody but the leader points the name anywhere but at real workers, and every list names real workers, missing none that matters. */
  predicate Outage(s: State, step: Step, nodes: seq<string>) {
    && (step.Write? ==> step.value.Some? && OnWorker(nodes, step.value.value))
    && (step.Judge? ==> forall w :: w in step.workers ==> w in nodes)
    && !Misses(s, step, nodes)
  }

  predicate HomeOrWorker(target: string, nodes: seq<string>, home: string) {
    target == home || OnWorker(nodes, target)
  }

  /** The home target is remembered, the name points there or at a real worker, and so does what the tick has in hand. */
  predicate HomeKept(s: State, fqdn: string, nodes: seq<string>, home: string) {
    && SavedFor(s.world.saved, fqdn) == Some(home)
    && Live(s.world.zone, fqdn).Some? && HomeOrWorker(Live(s.world.zone, fqdn).value, nodes, home)
    && match s.pc
       case Idle => true
       case Seen(live) => HomeOrWorker(live, nodes, home)
       case Away(live, workers, mine) => OnWorker(workers, live) && mine == Some(home)
       case Returning(target) => target == home
  }

  lemma StepKeepsHome(s: State, fqdn: string, step: Step, nodes: seq<string>, home: string)
    requires Enabled(s, step) && HomeKept(s, fqdn, nodes, home) && !OnWorker(nodes, home) && Outage(s, step, nodes)
    ensures HomeKept(Apply(s, fqdn, step), fqdn, nodes, home)
  {
  }

  lemma {:induction false} OutageKeepsHome(states: seq<State>, fqdn: string, steps: seq<Step>, nodes: seq<string>, home: string, a: nat, b: nat)
    requires IsRun(states, fqdn, steps) && a <= b < |states| && !OnWorker(nodes, home) && HomeKept(states[a], fqdn, nodes, home)
    requires forall n :: a <= n < b ==> Outage(states[n], steps[n], nodes)
    ensures HomeKept(states[b], fqdn, nodes, home)
  {
    if a < b {
      OutageKeepsHome(states, fqdn, steps, nodes, home, a, b - 1);
      assert Follows(states, fqdn, steps, b - 1);
      StepKeepsHome(states[b - 1], fqdn, steps[b - 1], nodes, home);
    }
  }

  lemma OnRealWorker(workers: seq<string>, nodes: seq<string>, target: string)
    requires OnWorker(workers, target) && forall w :: w in workers ==> w in nodes
    ensures OnWorker(nodes, target)
  {
  }

  /** Off home on a listed worker the leader wants the name back. */
  lemma WantsHome(workers: seq<string>, nodes: seq<string>, live: string, home: string)
    requires OnWorker(workers, live) && !OnWorker(nodes, home) && forall w :: w in workers ==> w in nodes
    ensures LeaderShouldRestore(true, false, Some(live), workers, Some(home))
  {
    var w :| w in workers && SameTarget(w, live);
    assert !SameTarget(w, home);
  }

  /**
   From any point at which home is remembered and the name is there: whatever outages follow, in which the
   name wanders among real workers and the leader restarts and fails at will, every write the leader makes
   puts the name at home, and a tick that meets no interim leader and whose update succeeds leaves it there
   exactly when it does not see it on a real worker that its list leaves out.
   */
  lemma LeaderReturnsHomeIff(states: seq<State>, fqdn: string, steps: seq<Step>, nodes: seq<string>, home: string, a: nat, b: nat,
                             workers: seq<string>, result: FileWrite)
    requires IsRun(states, fqdn, steps) && a <= b < |states|
    requires states[a].pc.Idle? && SavedFor(states[a].world.saved, fqdn) == Some(home) && Live(states[a].world.zone, fqdn) == Some(home)
    requires !OnWorker(nodes, home) && forall n :: a <= n < b ==> Outage(states[n], steps[n], nodes)
    requires forall w :: w in workers ==> w in nodes
    ensures forall n :: a <= n < b && steps[n] == PutBack(true) ==> Live(states[n + 1].world.zone, fqdn) == Some(home)
    ensures Live(states[b].world.zone, fqdn).Some?
    ensures
      var live := Live(states[b].world.zone, fqdn).value;
      Live(Tick(states[b].world, fqdn, workers, result, false, true).zone, fqdn) == Some(home) <==>
      !(OnWorker(nodes, live) && !OnWorker(workers, live))
  {
    forall n | a <= n < b && steps[n] == PutBack(true)
      ensures Live(states[n + 1].world.zone, fqdn) == Some(home)
    {
      OutageKeepsHome(states, fqdn, steps, nodes, home, a, n);
      assert Follows(states, fqdn, steps, n);
    }
    OutageKeepsHome(states, fqdn, steps, nodes, home, a, b);
    var live := Live(states[b].world.zone, fqdn).value;
    if OnWorker(workers, live) {
      OnRealWorker(workers, nodes, live);
      WantsHome(workers, nodes, live, home);
    }
  }

  // -------------------------------------------------------------------------- the way home lost

  /** The tick that gets no list while the name is on a worker remembers that worker for home. */
  lemma HomeForgotten(w: World, fqdn: string, nodes: seq<string>, away: string) returns (states: seq<State>, steps: seq<Step>)
    requires Live(w.zone, fqdn) == Some(away) && OnWorker(nodes, away)
    ensures IsRun(states, fqdn, steps) && steps == [Look, Judge([], Written)] && states[0] == State(w, Idle)
    ensures states[2].pc.Idle? && states[2].world.zone == w.zone && SavedFor(states[2].world.saved, fqdn) == Some(away)
  {
    var s0 := State(w, Idle);
    var s1 := Apply(s0, fqdn, Look);
    states, steps := [s0, s1, Apply(s1, fqdn, Judge([], Written))], [Look, Judge([], Written)];
  }

  /** The name and the memory are both at `away`, and so is what the tick has in hand. */
  predicate Settled(s: State, fqdn: string, away: string) {
    && SavedFor(s.world.saved, fqdn) == Some(away) && Live(s.world.zone, fqdn) == Some(away)
    && match s.pc
       case Idle => true
       case Seen(live) => live == away
       case Away(live, _, mine) => live == away && mine == Some(away)
       case Returning(_) => false
  }

  /** Then no tick, with whatever list and answers, ever moves the name or changes the memory again. */
  lemma {:induction false} NeverReturns(states: seq<State>, fqdn: string, steps: seq<Step>, away: string, a: nat, b: nat)
    requires IsRun(states, fqdn, steps) && a <= b < |states| && !IsBlank(away)
    requires Settled(states[a], fqdn, away) && forall n :: a <= n < b ==> !steps[n].Write?
    ensures Settled(states[b], fqdn, away)
  {
    if a < b {
      NeverReturns(states, fqdn, steps, away, a, b - 1);
      assert Follows(states, fqdn, steps, b - 1);
    }
  }
}
