/** Runs that show what failed saves, torn files and late syncs do. Their results are ignored by the code. */
module FailoverCases {
  import opened Text
  import opened DnsFailover
  import opened FailoverRuns

  /** A name `h` that points at `o` when an acting node with ingress `a` finds it down. */
  ghost predicate Setting(h: string, o: string, a: string) {
    Lower(h) == h && !IsBlank(a) && !SameTarget(o, a)
  }

  function EntryOf(h: string, original: string, target: string): Entry {
    Entry(h, Some(original), target, false)
  }

  /** The states of a first move whose save failed: read, recorded, not saved, moved all the same. */
  function Moving(h: string, o: string, a: string): seq<State> {
    var zone, mem := map[h := o], [EntryOf(h, o, a)];
    [State(zone, [], true, Idle, map[], map[]),
     State(zone, [], true, Ticking(a, [], false, Between), map[], map[]),
     State(zone, [], true, Ticking(a, [], false, Looked(h, Some(o))), map[], map[]),
     State(zone, [], true, Ticking(a, mem, false, Recorded(h)), map[], map[]),
     State(zone, [], true, Ticking(a, mem, false, Pointing(h)), map[], map[]),
     State(map[h := a], [], true, Ticking(a, mem, true, Between), map[h := Some(o)], map[])]
  }

  function MovingSteps(h: string, a: string): seq<Step> {
    [TickStart(a), Look(h), RecordName(false), Save(Unwritten), Point(Done)]
  }

  lemma MovingIsARun(h: string, o: string, a: string)
    requires Setting(h, o, a)
    ensures IsRun(Moving(h, o, a), MovingSteps(h, a))
  {
    var states, steps := Moving(h, o, a), MovingSteps(h, a);
    assert Record([], h, Some(o), a, false) == [EntryOf(h, o, a)];
    forall i | 0 <= i < 5
      ensures Follows(states, steps, i)
    {
      assert i == 0 || i == 1 || i == 2 || i == 3 || i == 4;
    }
  }

  lemma Extended(states: seq<State>, steps: seq<Step>, step: Step, s: State)
    requires IsRun(states, steps) && Leads(states[|steps|], step, s)
    ensures IsRun(states + [s], steps + [step])
  {
    var more, all := states + [s], steps + [step];
    forall i | 0 <= i < |all|
      ensures Follows(more, all, i)
    {
      if i < |steps| {
        assert Follows(states, steps, i);
      }
    }
  }

  /** A chain of further states continues a run. */
  lemma {:induction false} ExtendedBy(states: seq<State>, steps: seq<Step>, more: seq<State>, next: seq<Step>)
    requires IsRun(states, steps) && |more| == |next|
    requires more != [] ==> Leads(states[|steps|], next[0], more[0])
    requires forall n :: 0 < n < |more| ==> Leads(more[n - 1], next[n], more[n])
    ensures IsRun(states + more, steps + next)
    decreases |more|
  {
    if more == [] {
      assert states + more == states && steps + next == steps;
    } else {
      Extended(states, steps, next[0], more[0]);
      assert more[1..] != [] ==> Leads(more[0], next[1], more[1]);
      ExtendedBy(states + [more[0]], steps + [next[0]], more[1..], next[1..]);
      assert states + [more[0]] + more[1..] == states + more && steps + [next[0]] + next[1..] == steps + next;
    }
  }

  /** The name points here, and nothing says where it pointed before. */
  function Stranded(h: string, o: string, a: string): State {
    State(map[h := a], [], true, Idle, map[h := Some(o)], map[])
  }

  /** If the process crashes now, the moved name has no entry anywhere: its target is lost. */
  lemma RecordLost(h: string, o: string, a: string) returns (states: seq<State>, steps: seq<Step>)
    requires Setting(h, o, a)
    ensures IsRun(states, steps) && steps == MovingSteps(h, a) + [Crash]
    ensures states[6] == Stranded(h, o, a)
    ensures h in states[6].origin && Get(states[6].disk, h).None?
  {
    MovingIsARun(h, o, a);
    states, steps := Moving(h, o, a), MovingSteps(h, a);
    var s := Apply(states[5], Crash);
    Extended(states, steps, Crash, s);
    states, steps := states + [s], steps + [Crash];
  }

  /** If the tick ends with a save that succeeds, the failed one is made good: the entry is on disk, and exact. */
  lemma RecordMadeGood(h: string, o: string, a: string) returns (states: seq<State>, steps: seq<Step>)
    requires Setting(h, o, a)
    ensures IsRun(states, steps) && steps == MovingSteps(h, a) + [TickEnd(Written)]
    ensures states[6] == Journalled(h, o, a)
    ensures h in states[6].origin && Get(states[6].disk, h).Some? && Get(states[6].disk, h).value.original == states[6].origin[h]
  {
    MovingIsARun(h, o, a);
    states, steps := Moving(h, o, a), MovingSteps(h, a);
    var s := Apply(states[5], TickEnd(Written));
    Extended(states, steps, TickEnd(Written), s);
    states, steps := states + [s], steps + [TickEnd(Written)];
  }

  /** What follows the crash when the node comes back with another ingress `b`: the name is read again, and saved. */
  function ReadAgain(h: string, o: string, a: string, b: string): seq<State> {
    var zone, origin, mem := map[h := a], map[h := Some(o)], [EntryOf(h, a, b)];
    [State(zone, [], true, Ticking(b, [], false, Between), origin, map[]),
     State(zone, [], true, Ticking(b, [], false, Looked(h, Some(a))), origin, map[]),
     State(zone, [], true, Ticking(b, mem, false, Recorded(h)), origin, map[]),
     State(zone, mem, true, Ticking(b, mem, false, Pointing(h)), origin, map[])]
  }

  lemma AgainLeads(h: string, o: string, a: string, b: string)
    requires Lower(h) == h && !IsBlank(b) && !SameTarget(a, b)
    ensures
      var again := ReadAgain(h, o, a, b);
      && Leads(Stranded(h, o, a), TickStart(b), again[0])
      && Leads(again[0], Look(h), again[1])
      && Leads(again[1], RecordName(false), again[2])
      && Leads(again[2], Save(Written), again[3])
  {
    assert Record([], h, Some(a), b, false) == [EntryOf(h, a, b)];
  }

  /**
   The record lost and the node back with another ingress, the saved entry holds the node's own earlier
   target: every later save succeeds and nobody else ever writes the name, yet the entry is wrong.
   */
  lemma OwnMoveRecorded(h: string, o: string, a: string, b: string) returns (states: seq<State>, steps: seq<Step>)
    requires Setting(h, o, a) && !IsBlank(b) && !SameTarget(a, b) && a != o
    ensures IsRun(states, steps)
    ensures steps == MovingSteps(h, a) + [Crash] + [TickStart(b), Look(h), RecordName(false), Save(Written)]
    ensures h in states[10].origin && Get(states[10].disk, h).Some?
    ensures Get(states[10].disk, h).value.original == Some(a) && states[10].origin[h] == Some(o)
  {
    states, steps := RecordLost(h, o, a);
    AgainLeads(h, o, a, b);
    var again, next := ReadAgain(h, o, a, b), [TickStart(b), Look(h), RecordName(false), Save(Written)];
    ExtendedBy(states, steps, again, next);
    states, steps := states + again, steps + next;
  }

  // ------------------------------------------------------------------------------ a torn file

  /** Another name is being recorded by a tick, while `h` is moved and journalled: the file holds its entry. */
  function Journalled(h: string, o: string, a: string): State {
    State(map[h := a], [EntryOf(h, o, a)], true, Idle, map[h := Some(o)], map[])
  }

  /** The states of a tick that records `g`, whose save is torn, and then crashes. */
  function Tearing(h: string, o: string, a: string, g: string): seq<State> {
    var zone, disk, origin := map[h := a], [EntryOf(h, o, a)], map[h := Some(o)];
    var mem := disk + [Entry(g, None, a, false)];
    [State(zone, disk, true, Ticking(a, disk, false, Between), origin, map[]),
     State(zone, disk, true, Ticking(a, disk, false, Looked(g, None)), origin, map[]),
     State(zone, disk, true, Ticking(a, mem, false, Recorded(g)), origin, map[]),
     State(zone, [], true, Ticking(a, mem, false, Pointing(g)), origin, map[]),
     State(zone, [], true, Idle, origin, map[])]
  }

  function TearingSteps(a: string, g: string): seq<Step> {
    [TickStart(a), Look(g), RecordName(false), Save(Torn), Crash]
  }

  lemma TearingReads(h: string, o: string, a: string, g: string)
    requires Lower(h) == h && Lower(g) == g && g != h && !IsBlank(a)
    ensures
      var torn, next := Tearing(h, o, a, g), TearingSteps(a, g);
      Leads(Journalled(h, o, a), next[0], torn[0]) && Leads(torn[0], next[1], torn[1])
  {
  }

  lemma TearingRecords(h: string, o: string, a: string, g: string)
    requires Lower(h) == h && Lower(g) == g && g != h
    ensures
      var torn, next := Tearing(h, o, a, g), TearingSteps(a, g);
      Leads(torn[1], next[2], torn[2])
  {
    RecordAppends([EntryOf(h, o, a)], g, None, a, false);
  }

  lemma TearingTears(h: string, o: string, a: string, g: string)
    ensures
      var torn, next := Tearing(h, o, a, g), TearingSteps(a, g);
      Leads(torn[2], next[3], torn[3]) && Leads(torn[3], next[4], torn[4])
  {
  }

  /** A durable and exact entry of a moved name is lost when the save of another name tears the file. */
  lemma TornSaveLoses(h: string, o: string, a: string, g: string) returns (states: seq<State>, steps: seq<Step>)
    requires Setting(h, o, a) && Lower(g) == g && g != h
    ensures IsRun(states, steps) && steps == MovingSteps(h, a) + [TickEnd(Written)] + TearingSteps(a, g)
    ensures Get(states[6].disk, h) == Some(EntryOf(h, o, a)) && h in states[11].origin && states[11].disk == []
  {
    states, steps := RecordMadeGood(h, o, a);
    TearingReads(h, o, a, g);
    TearingRecords(h, o, a, g);
    TearingTears(h, o, a, g);
    ExtendedBy(states, steps, Tearing(h, o, a, g), TearingSteps(a, g));
    states, steps := states + Tearing(h, o, a, g), steps + TearingSteps(a, g);
  }

  // ------------------------------------------------------------------------------ a late sync

  /** The states of a move during which a sync, begun before it, waits to write. */
  function MovingUnderSync(h: string, o: string, a: string): seq<State> {
    var zone, mem, syncs := map[h := o], [EntryOf(h, o, a)], map[0 := Sync(h, true)];
    [State(zone, [], true, Idle, map[], map[]),
     State(zone, [], true, Idle, map[], syncs),
     State(zone, [], true, Ticking(a, [], false, Between), map[], syncs),
     State(zone, [], true, Ticking(a, [], false, Looked(h, Some(o))), map[], syncs),
     State(zone, [], true, Ticking(a, mem, false, Recorded(h)), map[], syncs),
     State(zone, mem, true, Ticking(a, mem, false, Pointing(h)), map[], syncs),
     State(map[h := a], mem, true, Ticking(a, mem, true, Between), map[h := Some(o)], syncs),
     State(map[h := o], mem, true, Ticking(a, mem, true, Between), map[h := Some(o)], map[])]
  }

  function LateSyncSteps(h: string, o: string, a: string): seq<Step> {
    [SyncStart(0, h), TickStart(a), Look(h), RecordName(false), Save(Written), Point(Done), SyncWrite(0, o)]
  }

  lemma SyncBegins(h: string, o: string, a: string)
    requires Setting(h, o, a)
    ensures
      var states, steps := MovingUnderSync(h, o, a), LateSyncSteps(h, o, a);
      Leads(states[0], steps[0], states[1]) && Leads(states[1], steps[1], states[2])
  {
  }

  lemma SyncWaits(h: string, o: string, a: string)
    requires Setting(h, o, a)
    ensures
      var states, steps := MovingUnderSync(h, o, a), LateSyncSteps(h, o, a);
      Leads(states[2], steps[2], states[3]) && Leads(states[3], steps[3], states[4])
  {
    assert Record([], h, Some(o), a, false) == [EntryOf(h, o, a)];
  }

  lemma SyncEnds(h: string, o: string, a: string)
    requires Setting(h, o, a)
    ensures
      var states, steps := MovingUnderSync(h, o, a), LateSyncSteps(h, o, a);
      && Leads(states[4], steps[4], states[5]) && Leads(states[5], steps[5], states[6]) && Leads(states[6], steps[6], states[7])
  {
  }

  /**
   A sync that asked before the name was journalled writes after the node has moved it: the node acts, the
   entry is on disk, and the name points at the dead leader again.
   */
  lemma LateSyncUndoesMove(h: string, o: string, a: string) returns (states: seq<State>, steps: seq<Step>)
    requires Setting(h, o, a)
    ensures IsRun(states, steps) && steps == LateSyncSteps(h, o, a)
    ensures states[6].acting && Get(states[6].disk, h).Some? && Live(states[6].zone, h) == Some(a)
    ensures states[7].acting && Get(states[7].disk, h).Some? && Live(states[7].zone, h) == Some(o)
  {
    states, steps := MovingUnderSync(h, o, a), LateSyncSteps(h, o, a);
    SyncBegins(h, o, a);
    SyncWaits(h, o, a);
    SyncEnds(h, o, a);
    assert IsRun(states[..1], []);
    ExtendedBy(states[..1], [], states[1..], steps);
    assert states[..1] + states[1..] == states && [] + steps == steps;
  }
}
