/**
 What the failover journal holds over whole runs: which names have an entry on disk, which entries are
 right, and that a name is journalled before it is moved.
 */
module FailoverJournal {
  import opened Text
  import opened DnsFailover
  import opened FailoverRuns

  // ---------------------------------------------------------------------- which entries are durable

  /** A copy of an entry: taken into a tick's memory at step `taken`, put on disk by the save at step `saved`. */
  datatype Leg = Leg(taken: nat, saved: nat)

  /** A tick's memory of step `t` is still there before step `k`. */
  ghost predicate Kept(steps: seq<Step>, t: nat, k: nat)
    requires k <= |steps|
  {
    t < k && forall m :: t < m < k ==> !Forgets(steps[m])
  }

  /** What the save of step `j` put on disk is still there before step `k`, as far as `h` goes. */
  ghost predicate OnDiskSince(states: seq<State>, steps: seq<Step>, j: nat, k: nat, h: string)
    requires k <= |steps| < |states|
  {
    j < k && forall m :: j < m < k ==> !Loses(states[m], steps[m], h)
  }

  /**
   The way of an entry into the memory of step `k`: recorded at step `taken`, or loaded then, at a tick's
   start, from a disk that the trail had led to; and not forgotten since.
   */
  ghost predicate InMemory(states: seq<State>, steps: seq<Step>, k: nat, h: string, taken: nat, trail: seq<Leg>)
    requires k <= |steps| < |states|
    decreases |trail|, 1
  {
    && Kept(steps, taken, k)
    && if trail == [] then Records(states[taken], steps[taken], h)
       else steps[taken].TickStart? && OnDisk(states, steps, taken, h, trail)
  }

  /** The way of an entry onto the disk of step `k`: the last leg ends in a save whose work is not lost since. */
  ghost predicate OnDisk(states: seq<State>, steps: seq<Step>, k: nat, h: string, trail: seq<Leg>)
    requires k <= |steps| < |states|
    decreases |trail|, 0
  {
    && trail != []
    && var leg := trail[|trail| - 1];
    && OnDiskSince(states, steps, leg.saved, k, h) && Persists(states[leg.saved], steps[leg.saved])
    && InMemory(states, steps, leg.saved, h, leg.taken, trail[..|trail| - 1])
  }

  ghost predicate LeadsThere(states: seq<State>, steps: seq<Step>, k: nat, h: string, trail: seq<Leg>)
    requires k <= |steps| < |states|
  {
    OnDisk(states, steps, k, h, trail)
  }

  /** The step that recorded the entry, from what the name then pointed at. */
  function Recording(taken: nat, trail: seq<Leg>): nat {
    if trail == [] then taken else trail[0].taken
  }

  lemma MemoryNext(states: seq<State>, steps: seq<Step>, n: nat, h: string)
    requires IsRun(states, steps) && n < |steps|
    requires states[n].pc.Ticking? && Get(states[n].pc.mem, h).Some? && !Forgets(steps[n])
    ensures states[n + 1].pc.Ticking? && Get(states[n + 1].pc.mem, h) == Get(states[n].pc.mem, h)
  {
    InvAlways(states, steps, n);
    assert Follows(states, steps, n);
    MemoryKeeps(states[n], steps[n], h);
  }

  lemma MemoryTaken(states: seq<State>, steps: seq<Step>, n: nat, h: string)
    requires IsRun(states, steps) && n < |steps|
    ensures Records(states[n], steps[n], h) ==>
              && states[n + 1].pc.Ticking? && Get(states[n + 1].pc.mem, h).Some?
              && Get(states[n + 1].pc.mem, h).value.original == states[n].pc.cursor.live
    ensures steps[n].TickStart? ==> states[n + 1].pc.Ticking? && states[n + 1].pc.mem == states[n].disk
  {
    InvAlways(states, steps, n);
    assert Follows(states, steps, n);
    if Records(states[n], steps[n], h) {
      RecordingHolds(states[n], steps[n], h);
    }
  }

  lemma DiskNext(states: seq<State>, steps: seq<Step>, n: nat, h: string)
    requires IsRun(states, steps) && n < |steps|
    ensures Get(states[n].disk, h).Some? && !Loses(states[n], steps[n], h) ==> Get(states[n + 1].disk, h) == Get(states[n].disk, h)
    ensures Persists(states[n], steps[n]) ==> states[n].pc.Ticking? && states[n + 1].disk == states[n].pc.mem
  {
    InvAlways(states, steps, n);
    assert Follows(states, steps, n);
    if Get(states[n].disk, h).Some? && !Loses(states[n], steps[n], h) {
      DiskKeeps(states[n], steps[n], h);
    }
    if Persists(states[n], steps[n]) {
      OthersKeepDisk(states[n], steps[n]);
    }
  }

  lemma {:induction false} MemoryHolds(states: seq<State>, steps: seq<Step>, k: nat, h: string, taken: nat, trail: seq<Leg>)
    requires IsRun(states, steps) && k < |states| && InMemory(states, steps, k, h, taken, trail)
    ensures Recording(taken, trail) < |steps| && Records(states[Recording(taken, trail)], steps[Recording(taken, trail)], h)
    ensures states[k].pc.Ticking? && Get(states[k].pc.mem, h).Some?
    ensures Get(states[k].pc.mem, h).value.original == states[Recording(taken, trail)].pc.cursor.live
    decreases k
  {
    if k == taken + 1 {
      MemoryTaken(states, steps, taken, h);
      if trail != [] {
        DiskHolds(states, steps, taken, h, trail);
      }
    } else {
      MemoryHolds(states, steps, k - 1, h, taken, trail);
      MemoryNext(states, steps, k - 1, h);
    }
  }

  lemma {:induction false} DiskHolds(states: seq<State>, steps: seq<Step>, k: nat, h: string, trail: seq<Leg>)
    requires IsRun(states, steps) && k < |states| && OnDisk(states, steps, k, h, trail)
    ensures trail[0].taken < |steps| && Records(states[trail[0].taken], steps[trail[0].taken], h)
    ensures Get(states[k].disk, h).Some?
    ensures Get(states[k].disk, h).value.original == states[trail[0].taken].pc.cursor.live
    decreases k
  {
    var leg, front := trail[|trail| - 1], trail[..|trail| - 1];
    if k == leg.saved + 1 {
      MemoryHolds(states, steps, leg.saved, h, leg.taken, front);
    } else {
      DiskHolds(states, steps, k - 1, h, trail);
    }
    DiskNext(states, steps, k - 1, h);
  }

  lemma MemoryBack(states: seq<State>, steps: seq<Step>, n: nat, h: string)
    requires IsRun(states, steps) && n < |steps| && Lower(h) == h
    requires states[n + 1].pc.Ticking? && Get(states[n + 1].pc.mem, h).Some?
    ensures
      || (states[n].pc.Ticking? && Get(states[n].pc.mem, h).Some? && !Forgets(steps[n]))
      || Records(states[n], steps[n], h)
      || (steps[n].TickStart? && Get(states[n].disk, h).Some?)
  {
    InvAlways(states, steps, n);
    assert Follows(states, steps, n);
    MemoryFrom(states[n], steps[n], h);
  }

  lemma DiskBack(states: seq<State>, steps: seq<Step>, n: nat, h: string)
    requires IsRun(states, steps) && n < |steps| && Get(states[n + 1].disk, h).Some?
    ensures !Loses(states[n], steps[n], h)
    ensures (Persists(states[n], steps[n]) && states[n].pc.Ticking? && Get(states[n].pc.mem, h).Some?) || Get(states[n].disk, h).Some?
  {
    InvAlways(states, steps, n);
    assert Follows(states, steps, n);
    DiskFrom(states[n], steps[n], h);
  }

  lemma {:induction false} MemoryTrail(states: seq<State>, steps: seq<Step>, k: nat, h: string) returns (taken: nat, trail: seq<Leg>)
    requires IsRun(states, steps) && k < |states| && Lower(h) == h
    requires states[k].pc.Ticking? && Get(states[k].pc.mem, h).Some?
    ensures InMemory(states, steps, k, h, taken, trail)
    decreases k
  {
    var n := k - 1;
    MemoryBack(states, steps, n, h);
    if Records(states[n], steps[n], h) {
      taken, trail := n, [];
    } else if steps[n].TickStart? && Get(states[n].disk, h).Some? {
      taken := n;
      trail := DiskTrail(states, steps, n, h);
    } else {
      taken, trail := MemoryTrail(states, steps, n, h);
    }
  }

  lemma {:induction false} DiskTrail(states: seq<State>, steps: seq<Step>, k: nat, h: string) returns (trail: seq<Leg>)
    requires IsRun(states, steps) && k < |states| && Lower(h) == h
    requires Get(states[k].disk, h).Some?
    ensures OnDisk(states, steps, k, h, trail)
    decreases k
  {
    var n := k - 1;
    DiskBack(states, steps, n, h);
    if Persists(states[n], steps[n]) && states[n].pc.Ticking? && Get(states[n].pc.mem, h).Some? {
      var taken, front := MemoryTrail(states, steps, n, h);
      trail := front + [Leg(taken, n)];
      assert trail[..|trail| - 1] == front;
    } else {
      trail := DiskTrail(states, steps, n, h);
    }
  }

  /**
   Whatever saves fail or tear the file and wherever the process crashes: a name has an entry on disk
   exactly when a trail leads there. It was recorded in some tick and saved, for this name or a later one
   or at the tick's end, before a crash or that end lost the memory; a later tick may have loaded it and
   saved it again; and since the last of those saves the file has not been torn nor the entry dropped.
   */
  lemma EntryDurableIff(states: seq<State>, steps: seq<Step>, k: nat, h: string)
    requires IsRun(states, steps) && k < |states| && Lower(h) == h
    ensures Get(states[k].disk, h).Some? <==> exists trail :: LeadsThere(states, steps, k, h, trail)
  {
    if Get(states[k].disk, h).Some? {
      var trail := DiskTrail(states, steps, k, h);
      assert LeadsThere(states, steps, k, h, trail);
    }
    forall trail | LeadsThere(states, steps, k, h, trail)
      ensures Get(states[k].disk, h).Some?
    {
      DiskHolds(states, steps, k, h, trail);
    }
  }

  // ------------------------------------------------------------------------ which entries are exact

  /** Step `i` read the name for the recording at step `r`. */
  ghost predicate ReadFor(states: seq<State>, steps: seq<Step>, i: nat, r: nat, h: string)
    requires |steps| < |states|
  {
    && i < r <= |steps| && steps[i].Look? && Lower(steps[i].fqdn) == h
    && forall m :: i < m <= r ==> states[m].pc.Ticking? && states[m].pc.cursor.Looked? && states[m].pc.cursor.name == h
  }

  lemma {:induction false} ReadBefore(states: seq<State>, steps: seq<Step>, r: nat, h: string) returns (i: nat)
    requires IsRun(states, steps) && r < |states|
    requires states[r].pc.Ticking? && states[r].pc.cursor.Looked? && states[r].pc.cursor.name == h
    ensures ReadFor(states, steps, i, r, h)
  {
    assert Follows(states, steps, r - 1);
    if steps[r - 1].Look? {
      i := r - 1;
    } else {
      i := ReadBefore(states, steps, r - 1, h);
    }
  }

  /** What a reading saw is what its recording writes down. */
  lemma {:induction false} ReadLive(states: seq<State>, steps: seq<Step>, i: nat, r: nat, h: string)
    requires IsRun(states, steps) && r < |states| && ReadFor(states, steps, i, r, h)
    ensures states[r].pc.cursor.live == Live(states[i].zone, h)
  {
    assert Follows(states, steps, r - 1);
    if r == i + 1 {
      LowerIdempotent(steps[i].fqdn);
      BetweenAtLook(states, steps, i);
    } else {
      ReadLive(states, steps, i, r - 1, h);
    }
  }

  lemma BetweenAtLook(states: seq<State>, steps: seq<Step>, i: nat)
    requires IsRun(states, steps) && i < |steps| && steps[i].Look?
    ensures states[i].pc.Ticking? && states[i].pc.cursor.Between?
  {
    assert Follows(states, steps, i);
  }

  /** The update takes effect, whatever its answer. */
  predicate Moves(s: State, step: Step, h: string) {
    step.Point? && !step.update.Refused? && s.pc.Ticking? && s.pc.cursor == Pointing(h)
  }

  /** Step `m` is the first move of a name that has been moved and not restored since. */
  ghost predicate FirstMove(states: seq<State>, steps: seq<Step>, m: nat, k: nat, h: string)
    requires k <= |steps| < |states|
  {
    && m < k && Moves(states[m], steps[m], h) && h !in states[m].origin
    && forall n :: m < n <= k ==> h in states[n].origin
  }

  lemma {:induction false} MovedAt(states: seq<State>, steps: seq<Step>, k: nat, h: string) returns (m: nat)
    requires IsRun(states, steps) && k < |states| && h in states[k].origin
    ensures FirstMove(states, steps, m, k, h)
  {
    assert Follows(states, steps, k - 1);
    if h in states[k - 1].origin {
      m := MovedAt(states, steps, k - 1, h);
    } else {
      m := k - 1;
    }
  }

  /** The origin of a moved name is what it pointed at when it was first moved. */
  lemma {:induction false} OriginIsBeforeMove(states: seq<State>, steps: seq<Step>, m: nat, k: nat, h: string)
    requires IsRun(states, steps) && k < |states| && FirstMove(states, steps, m, k, h)
    ensures states[k].origin[h] == Live(states[m].zone, h)
  {
    InvAlways(states, steps, m);
    assert Follows(states, steps, k - 1);
    if k > m + 1 {
      OriginIsBeforeMove(states, steps, m, k - 1, h);
    }
  }

  /**
   The entry of a moved name holds what the name pointed at before its first move exactly when the name
   pointed at the same target at the reading that made the entry. The reading may come before that move,
   with other writes in between, or after it, when an earlier record was lost: then the node's own move
   is one of those writes.
   */
  lemma EntryExactIff(states: seq<State>, steps: seq<Step>, k: nat, h: string, trail: seq<Leg>, i: nat, m: nat)
    requires IsRun(states, steps) && k < |states|
    requires OnDisk(states, steps, k, h, trail) && ReadFor(states, steps, i, trail[0].taken, h) && FirstMove(states, steps, m, k, h)
    ensures Get(states[k].disk, h).Some? && h in states[k].origin
    ensures Get(states[k].disk, h).value.original == states[k].origin[h] <==>
              Live(states[i].zone, h) == Live(states[m].zone, h)
  {
    DiskHolds(states, steps, k, h, trail);
    ReadLive(states, steps, i, trail[0].taken, h);
    OriginIsBeforeMove(states, steps, m, k, h);
  }

  /** Every journalled name that has moved has such a record, saving, reading and first move. */
  lemma MovedEntryExactIff(states: seq<State>, steps: seq<Step>, k: nat, h: string) returns (trail: seq<Leg>, i: nat, m: nat)
    requires IsRun(states, steps) && k < |states| && h in states[k].origin && Get(states[k].disk, h).Some?
    ensures OnDisk(states, steps, k, h, trail) && ReadFor(states, steps, i, trail[0].taken, h) && FirstMove(states, steps, m, k, h)
    ensures Get(states[k].disk, h).value.original == states[k].origin[h] <==>
              Live(states[i].zone, h) == Live(states[m].zone, h)
  {
    InvAlways(states, steps, k);
    trail := DiskTrail(states, steps, k, h);
    DiskHolds(states, steps, k, h, trail);
    i := ReadBefore(states, steps, trail[0].taken, h);
    m := MovedAt(states, steps, k, h);
    EntryExactIff(states, steps, k, h, trail, i, m);
  }

  // ------------------------------------------------------------------------------- write-ahead

  /** Every save that was to put `h` itself on disk before its move succeeded, and no torn write found its entry there. */
  predicate SavesOf(states: seq<State>, steps: seq<Step>, k: nat, h: string)
    requires k <= |steps| < |states|
  {
    forall n :: 0 <= n < k ==> SaveOf(states[n], steps[n], h)
  }

  predicate SaveOf(s: State, step: Step, h: string) {
    && (step.Save? && s.pc.Ticking? && s.pc.cursor == Recorded(h) ==> step.result.Written?)
    && (Tears(s, step) ==> Get(s.disk, h).None?)
  }

  /** On disk is every name that is moved, about to be moved, or in a tick's memory past its save. */
  ghost predicate AheadOfMoves(s: State, h: string) {
    && (h in s.origin ==> Get(s.disk, h).Some?)
    && (s.pc.Ticking? && Get(s.pc.mem, h).Some? && s.pc.cursor != Recorded(h) ==> Get(s.disk, h).Some?)
  }

  lemma OriginGains(s: State, step: Step, h: string)
    requires Enabled(s, step) && h in Apply(s, step).origin
    ensures h in s.origin || Moves(s, step, h)
    ensures Drops(s, step, h) ==> Get(s.disk, h).None?
  {
  }

  lemma StepKeepsOriginAhead(s: State, step: Step, h: string)
    requires Inv(s) && Enabled(s, step) && AheadOfMoves(s, h) && SaveOf(s, step, h) && h in Apply(s, step).origin
    ensures Get(Apply(s, step).disk, h).Some?
  {
    OriginGains(s, step, h);
    DiskKeeps(s, step, h);
  }

  lemma StepKeepsMemoryAhead(s: State, step: Step, h: string)
    requires Inv(s) && Enabled(s, step) && Lower(h) == h && AheadOfMoves(s, h)
    requires SaveOf(s, step, h)
    requires Apply(s, step).pc.Ticking? && Get(Apply(s, step).pc.mem, h).Some? && Apply(s, step).pc.cursor != Recorded(h)
    ensures Get(Apply(s, step).disk, h).Some?
  {
    MemoryFrom(s, step, h);
    if Get(s.disk, h).Some? {
      DiskKeeps(s, step, h);
    }
  }

  lemma StepKeepsAhead(s: State, step: Step, h: string)
    requires Inv(s) && Enabled(s, step) && Lower(h) == h && AheadOfMoves(s, h)
    requires SaveOf(s, step, h)
    ensures AheadOfMoves(Apply(s, step), h)
  {
    var s' := Apply(s, step);
    if h in s'.origin {
      StepKeepsOriginAhead(s, step, h);
    }
    if s'.pc.Ticking? && Get(s'.pc.mem, h).Some? && s'.pc.cursor != Recorded(h) {
      StepKeepsMemoryAhead(s, step, h);
    }
  }

  lemma {:induction false} AheadAlways(states: seq<State>, steps: seq<Step>, k: nat, h: string)
    requires IsRun(states, steps) && k < |states| && Lower(h) == h && SavesOf(states, steps, k, h)
    ensures AheadOfMoves(states[k], h)
  {
    if k > 0 {
      AheadAlways(states, steps, k - 1, h);
      InvAlways(states, steps, k - 1);
      assert Follows(states, steps, k - 1);
      StepKeepsAhead(states[k - 1], steps[k - 1], h);
    }
  }

  lemma MovedStaysSaved(states: seq<State>, steps: seq<Step>, n: nat, h: string)
    requires IsRun(states, steps) && n < |steps| && SaveOf(states[n], steps[n], h)
    requires Get(states[n].disk, h).Some? && h in states[n + 1].origin
    ensures !Loses(states[n], steps[n], h)
  {
    assert Follows(states, steps, n);
    OriginGains(states[n], steps[n], h);
  }

  lemma OnDiskNext(states: seq<State>, steps: seq<Step>, n: nat, h: string, trail: seq<Leg>)
    requires n < |steps| < |states| && OnDisk(states, steps, n, h, trail) && !Loses(states[n], steps[n], h)
    ensures OnDisk(states, steps, n + 1, h, trail)
  {
  }

  /** The entry behind a moved name is still the one that was on disk at the first move. */
  lemma {:induction false} StillOnDisk(states: seq<State>, steps: seq<Step>, m: nat, k: nat, h: string, trail: seq<Leg>)
    requires IsRun(states, steps) && m <= k < |states| && OnDisk(states, steps, m, h, trail) && SavesOf(states, steps, k, h)
    requires forall n :: m < n <= k ==> h in states[n].origin
    ensures OnDisk(states, steps, k, h, trail)
  {
    if k > m {
      StillOnDisk(states, steps, m, k - 1, h, trail);
      DiskHolds(states, steps, k - 1, h, trail);
      MovedStaysSaved(states, steps, k - 1, h);
      OnDiskNext(states, steps, k - 1, h, trail);
    }
  }

  /**
   Write-ahead: if the saves of this one name succeed and no torn write meets its entry, then at every
   point, crashes included, a moved name was read, recorded, saved and only then first moved, and the
   entry of that reading is on disk.
   */
  lemma MovedNamesRecoverable(states: seq<State>, steps: seq<Step>, k: nat, h: string) returns (trail: seq<Leg>, i: nat, m: nat)
    requires IsRun(states, steps) && k < |states| && h in states[k].origin && SavesOf(states, steps, k, h)
    ensures FirstMove(states, steps, m, k, h) && OnDisk(states, steps, m, h, trail) && OnDisk(states, steps, k, h, trail)
    ensures ReadFor(states, steps, i, trail[0].taken, h)
    ensures Get(states[k].disk, h).Some?
  {
    InvAlways(states, steps, k);
    m := MovedAt(states, steps, k, h);
    PointedIsAhead(states, steps, m, h);
    trail := DiskTrail(states, steps, m, h);
    DiskHolds(states, steps, m, h, trail);
    i := ReadBefore(states, steps, trail[0].taken, h);
    StillOnDisk(states, steps, m, k, h, trail);
    DiskHolds(states, steps, k, h, trail);
  }

  lemma PointedIsAhead(states: seq<State>, steps: seq<Step>, m: nat, h: string)
    requires IsRun(states, steps) && m < |steps| && Lower(h) == h && SavesOf(states, steps, m, h) && Moves(states[m], steps[m], h)
    ensures Get(states[m].disk, h).Some?
  {
    InvAlways(states, steps, m);
    AheadAlways(states, steps, m, h);
  }

  /** If nobody writes the name from its reading to its first move, the entry is exact. */
  lemma QuietEntryExact(states: seq<State>, steps: seq<Step>, k: nat, h: string, trail: seq<Leg>, i: nat, m: nat)
    requires IsRun(states, steps) && k < |states| && Lower(h) == h
    requires OnDisk(states, steps, k, h, trail) && ReadFor(states, steps, i, trail[0].taken, h) && FirstMove(states, steps, m, k, h)
    requires i <= m && forall n :: i <= n < m ==> !Touches(states[n], steps[n], h)
    ensures Get(states[k].disk, h).Some? && h in states[k].origin
    ensures Get(states[k].disk, h).value.original == states[k].origin[h]
  {
    UntouchedThroughout(states, steps, i, m, h);
    EntryExactIff(states, steps, k, h, trail, i, m);
  }

  /** If a first record was lost and the name is read again after its move, the new entry holds the node's own target. */
  lemma LostRecordKeepsOwnMove(states: seq<State>, steps: seq<Step>, k: nat, h: string, trail: seq<Leg>, i: nat, m: nat)
    requires IsRun(states, steps) && k < |states| && Lower(h) == h
    requires OnDisk(states, steps, k, h, trail) && ReadFor(states, steps, i, trail[0].taken, h) && FirstMove(states, steps, m, k, h)
    requires m < i && forall n :: m < n < i ==> !Touches(states[n], steps[n], h)
    ensures Get(states[k].disk, h).Some? && Get(states[k].disk, h).value.original == Some(states[m].pc.ingress)
  {
    assert Follows(states, steps, m);
    UntouchedThroughout(states, steps, m + 1, i, h);
    DiskHolds(states, steps, k, h, trail);
    ReadLive(states, steps, i, trail[0].taken, h);
  }

  // ------------------------------------------------------------------------------------ one tick

  /** Steps `a` to `m` belong to one tick, which began at step `a`. */
  ghost predicate SameTick(states: seq<State>, steps: seq<Step>, a: nat, m: nat)
    requires |steps| < |states|
  {
    && a < m <= |steps| && steps[a].TickStart?
    && forall n :: a < n <= m ==> states[n].pc.Ticking? && states[n].pc.ingress == steps[a].ingress
  }

  lemma TickGoesOn(s: State, step: Step)
    requires Enabled(s, step) && Apply(s, step).pc.Ticking?
    ensures
      || (step.TickStart? && s.acting && Apply(s, step).pc.ingress == step.ingress && !Apply(s, step).pc.changed)
      || (s.pc.Ticking? && Apply(s, step).pc.ingress == s.pc.ingress && (Apply(s, step).pc.changed <==> s.pc.changed || step == Point(Done)))
  {
  }

  /** Any tick began while the node acted as leader; at its end it saves again exactly if some update of it was answered with success. */
  lemma {:induction false} TickBegan(states: seq<State>, steps: seq<Step>, m: nat) returns (a: nat)
    requires IsRun(states, steps) && m < |states| && states[m].pc.Ticking?
    ensures SameTick(states, steps, a, m) && states[a].acting && !IsBlank(steps[a].ingress)
    ensures states[m].pc.changed <==> exists n :: a < n < m && steps[n] == Point(Done)
  {
    assert m > 0;
    assert Follows(states, steps, m - 1);
    TickGoesOn(states[m - 1], steps[m - 1]);
    if steps[m - 1].TickStart? {
      a := m - 1;
    } else {
      a := TickBegan(states, steps, m - 1);
    }
  }

  /** A name is moved only within a tick that began while the node acted, after it was read to point elsewhere, and to that tick's own ingress. */
  lemma MovedWhileActing(states: seq<State>, steps: seq<Step>, m: nat, h: string) returns (a: nat, i: nat)
    requires IsRun(states, steps) && m < |steps| && Moves(states[m], steps[m], h)
    ensures a < i < m && SameTick(states, steps, a, m) && states[a].acting
    ensures steps[i].Look? && Lower(steps[i].fqdn) == h && !PointsTo(states[i].zone, h, steps[a].ingress)
    ensures Live(states[m + 1].zone, h) == Some(steps[a].ingress)
  {
    a := TickBegan(states, steps, m);
    i := LookedAt(states, steps, a, m, h);
    InvAlways(states, steps, m);
    assert Follows(states, steps, m);
  }

  lemma CursorFrom(s: State, step: Step, h: string)
    requires Enabled(s, step) && CursorOn(Apply(s, step).pc, h) && !step.TickStart?
    ensures CursorOn(s.pc, h) || (step.Look? && Lower(step.fqdn) == h && !PointsTo(s.zone, step.fqdn, Apply(s, step).pc.ingress))
  {
  }

  /** The tick has name `h` in hand. */
  predicate CursorOn(pc: Pc, h: string) {
    && pc.Ticking?
    && match pc.cursor
       case Between => false
       case Looked(x, _) => x == h
       case Recorded(x) => x == h
       case Pointing(x) => x == h
  }

  lemma {:induction false} LookedAt(states: seq<State>, steps: seq<Step>, a: nat, m: nat, h: string) returns (i: nat)
    requires IsRun(states, steps) && SameTick(states, steps, a, m) && CursorOn(states[m].pc, h)
    ensures a < i < m && steps[i].Look? && Lower(steps[i].fqdn) == h && !PointsTo(states[i].zone, h, steps[a].ingress)
  {
    assert Follows(states, steps, m - 1);
    if m == a + 1 {
      assert false;
    } else {
      CursorFrom(states[m - 1], steps[m - 1], h);
      if CursorOn(states[m - 1].pc, h) {
        i := LookedAt(states, steps, a, m - 1, h);
      } else {
        i := m - 1;
        LowerIdempotent(steps[i].fqdn);
      }
    }
  }
}
