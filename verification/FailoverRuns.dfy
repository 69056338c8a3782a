/**
 The failover journal over whole runs: interim ticks and restores advance one read, save or DNS update
 at a time, any save or update may fail, the process may crash between any two steps, and DNS syncs,
 each a test and a later write, and other writers interfere.
 */
module FailoverRuns {
  import opened Text
  import opened DnsFailover

  /** Inside a tick: between names, name read, name recorded in memory only, name about to be moved. */
  datatype Cursor = Between | Looked(name: string, live: Option<string>) | Recorded(name: string) | Pointing(name: string)

  /** `mem` is the journal a tick works on; it reaches the disk only by a save. */
  datatype Pc =
    | Idle
    | Ticking(ingress: string, mem: Journal, changed: bool, cursor: Cursor)
    | Restoring(todo: Journal, left: Journal)

  /** A DNS sync of one name, under way: `passed` once it has seen no reason to leave the name alone. */
  datatype Sync = Sync(name: string, passed: bool)

  /** An update may take effect and still be answered by an error. */
  datatype Update = Done | Refused | Unanswered

  /** `origin` records, for every name moved and not yet restored, what it pointed at just before its first move. */
  datatype State = State(
    zone: Zone,
    disk: Journal,
    acting: bool,
    pc: Pc,
    origin: map<string, Option<string>>,
    syncs: map<nat, Sync>)

  datatype Step =
    | TickStart(ingress: string)
    | Look(fqdn: string)
    | Skip
    | RecordName(controlPlane: bool)
    | KeepEntry
    | Save(result: FileWrite)
    | Point(update: Update)
    | TickEnd(result: FileWrite)
    | RestoreStart
    | RestoreNext(update: Update)
    | RestoreEnd(result: FileWrite)
    | Abandon                              // the restore's time limit
    | Crash
    | SetActing(acting: bool)
    | SyncStart(id: nat, fqdn: string)     // is the name overridden?
    | SyncActing(id: nat)                  // it is: does the node act as leader?
    | SyncWrite(id: nat, target: string)
    | SyncFail(id: nat)
    | OtherWrite(fqdn: string, value: Option<string>)

  predicate Enabled(s: State, step: Step) {
    match step
    case TickStart(ingress) => s.pc.Idle? && s.acting && !IsBlank(ingress)
    case Look(_) => s.pc.Ticking? && s.pc.cursor.Between?
    case Skip => s.pc.Ticking? && s.pc.cursor.Looked?
    case RecordName(_) => s.pc.Ticking? && s.pc.cursor.Looked? && Get(s.pc.mem, s.pc.cursor.name).None?
    case KeepEntry => s.pc.Ticking? && s.pc.cursor.Looked? && Get(s.pc.mem, s.pc.cursor.name).Some?
    case Save(_) => s.pc.Ticking? && s.pc.cursor.Recorded?
    case Point(_) => s.pc.Ticking? && s.pc.cursor.Pointing?
    case TickEnd(_) => s.pc.Ticking? && s.pc.cursor.Between?
    case RestoreStart => s.pc.Idle? && s.disk != []
    case RestoreNext(_) => s.pc.Restoring? && s.pc.todo != []
    case RestoreEnd(_) => s.pc.Restoring? && s.pc.todo == []
    case Abandon => s.pc.Restoring?
    case SyncStart(id, _) => id !in s.syncs
    case SyncActing(id) => id in s.syncs && !s.syncs[id].passed
    case SyncWrite(id, _) => id in s.syncs && s.syncs[id].passed
    case SyncFail(id) => id in s.syncs
    case Crash => true
    case SetActing(_) => true
    case OtherWrite(_, _) => true
  }

  function Filed(disk: Journal, content: Journal, result: FileWrite): Journal {
    match result
    case Written => content
    case Unwritten => disk
    case Torn => []
  }

  function SetRecord(zone: Zone, h: string, value: Option<string>): Zone {
    match value
    case Some(v) => zone[h := v]
    case None => map k | k in zone && k != h :: zone[k]
  }

  /** The names whose entry the restore's last save drops, their original being unknown, are nobody's to restore. */
  function NotDropped(origin: map<string, Option<string>>, disk: Journal, left: Journal): map<string, Option<string>> {
    map h | h in origin && !(Get(disk, h).Some? && Get(left, h).None?) :: origin[h]
  }

  function Apply(s: State, step: Step): State
    requires Enabled(s, step)
  {
    match step
    case TickStart(ingress) => s.(pc := Ticking(ingress, s.disk, false, Between))
    case Look(fqdn) =>
      if PointsTo(s.zone, fqdn, s.pc.ingress) then s
      else s.(pc := s.pc.(cursor := Looked(Lower(fqdn), Live(s.zone, fqdn))))
    case Skip => s.(pc := s.pc.(cursor := Between))
    case RecordName(cp) =>
      var c := s.pc.cursor;
      s.(pc := s.pc.(mem := Record(s.pc.mem, c.name, c.live, s.pc.ingress, cp), cursor := Recorded(c.name)))
    case KeepEntry => s.(pc := s.pc.(cursor := Pointing(s.pc.cursor.name)))
    case Save(result) => s.(disk := Filed(s.disk, s.pc.mem, result), pc := s.pc.(cursor := Pointing(s.pc.cursor.name)))
    case Point(update) =>
      var h := s.pc.cursor.name;
      if update.Refused? then s.(pc := s.pc.(cursor := Between))
      else s.(zone := s.zone[h := s.pc.ingress],
              pc := s.pc.(cursor := Between, changed := s.pc.changed || update.Done?),
              origin := if h in s.origin then s.origin else s.origin[h := Live(s.zone, h)])
    case TickEnd(result) => s.(disk := if s.pc.changed then Filed(s.disk, s.pc.mem, result) else s.disk, pc := Idle)
    case RestoreStart => s.(pc := Restoring(s.disk, []))
    case RestoreNext(update) =>
      var e, rest := s.pc.todo[0], s.pc.todo[1..];
      if !Known(e) then s.(pc := s.pc.(todo := rest))
      else
        var next := s.(pc := Restoring(rest, if update.Done? then s.pc.left else s.pc.left + [e]));
        if update.Refused? then next
        else next.(zone := s.zone[Lower(e.fqdn) := e.original.value], origin := s.origin - {e.fqdn})
    case RestoreEnd(result) =>
      s.(disk := Filed(s.disk, s.pc.left, result), pc := Idle,
         origin := if result.Written? then NotDropped(s.origin, s.disk, s.pc.left) else s.origin)
    case Abandon => s.(pc := Idle)
    case Crash => s.(pc := Idle, syncs := map[])
    case SetActing(acting) => s.(acting := acting)
    case SyncStart(id, fqdn) => s.(syncs := s.syncs[id := Sync(Lower(fqdn), Get(s.disk, fqdn).None?)])
    case SyncActing(id) =>
      if s.acting then s.(syncs := s.syncs - {id}) else s.(syncs := s.syncs[id := s.syncs[id].(passed := true)])
    case SyncWrite(id, target) => s.(zone := s.zone[s.syncs[id].name := target], syncs := s.syncs - {id})
    case SyncFail(id) => s.(syncs := s.syncs - {id})
    case OtherWrite(fqdn, value) => s.(zone := SetRecord(s.zone, Lower(fqdn), value))
  }

  ghost predicate Init(s: State) {
    s.disk == [] && s.pc.Idle? && s.origin == map[] && s.syncs == map[]
  }

  ghost predicate IsRun(states: seq<State>, steps: seq<Step>) {
    && |states| == |steps| + 1
    && Init(states[0])
    && forall i :: 0 <= i < |steps| ==> Follows(states, steps, i)
  }

  ghost predicate Follows(states: seq<State>, steps: seq<Step>, i: nat)
    requires i < |steps| < |states|
  {
    Leads(states[i], steps[i], states[i + 1])
  }

  predicate Leads(s: State, step: Step, s': State) {
    Enabled(s, step) && s' == Apply(s, step)
  }

  // -------------------------------------------------------------------------------- invariant

  /** A tick's journal extends the one on disk, and the name in hand is journalled once it has been recorded or kept. */
  ghost predicate TickOk(s: State)
    requires s.pc.Ticking?
  {
    && JournalOk(s.pc.mem) && s.disk <= s.pc.mem
    && match s.pc.cursor
       case Between => true
       case Looked(h, _) => Lower(h) == h
       case Recorded(h) => Lower(h) == h && Get(s.pc.mem, h).Some?
       case Pointing(h) => Lower(h) == h && Get(s.pc.mem, h).Some?
  }

  ghost predicate RestoreOk(s: State)
    requires s.pc.Restoring?
  {
    JournalOk(s.pc.left + s.pc.todo) && forall e :: e in s.pc.left + s.pc.todo ==> e in s.disk
  }

  ghost predicate Inv(s: State) {
    && JournalOk(s.disk)
    && (forall h :: h in s.origin ==> Lower(h) == h)
    && (forall id :: id in s.syncs ==> Lower(s.syncs[id].name) == s.syncs[id].name)
    && (s.pc.Ticking? ==> TickOk(s))
    && (s.pc.Restoring? ==> RestoreOk(s))
  }

  lemma GetIn(j: Journal, e: Entry)
    requires JournalOk(j) && e in j
    ensures Get(j, e.fqdn) == Some(e)
  {
    var i :| 0 <= i < |j| && j[i] == e;
    GetUnique(j, i);
  }

  lemma {:induction false} GetPrefix(a: Journal, b: Journal, h: string)
    requires a <= b && Get(a, h).Some?
    ensures Get(b, h) == Get(a, h)
  {
    if Lower(a[0].fqdn) != Lower(h) {
      GetPrefix(a[1..], b[1..], h);
    }
  }

  lemma RecordKeepsTick(s: State, cp: bool)
    requires s.pc.Ticking? && TickOk(s) && Enabled(s, RecordName(cp))
    ensures TickOk(Apply(s, RecordName(cp)))
  {
    var c := s.pc.cursor;
    RecordAppends(s.pc.mem, c.name, c.live, s.pc.ingress, cp);
    JournalNewName(s.pc.mem, c.name, c.live, s.pc.ingress, cp);
  }

  lemma CursorKeepsInv(s: State, step: Step)
    requires Inv(s) && Enabled(s, step)
    requires step.TickStart? || step.Look? || step.Skip? || step.KeepEntry?
    ensures Inv(Apply(s, step))
  {
    if step.Look? {
      LowerIdempotent(step.fqdn);
    }
  }

  lemma SaveKeepsInv(s: State, step: Step)
    requires Inv(s) && Enabled(s, step)
    requires step.Save? || step.TickEnd?
    ensures Inv(Apply(s, step))
  {
  }

  lemma PointKeepsInv(s: State, update: Update)
    requires Inv(s) && Enabled(s, Point(update))
    ensures Inv(Apply(s, Point(update)))
  {
  }

  lemma RestoreNextKeepsTodo(s: State, update: Update)
    requires s.pc.Restoring? && RestoreOk(s) && Enabled(s, RestoreNext(update))
    ensures var s' := Apply(s, RestoreNext(update)); s'.pc.Restoring? && RestoreOk(s')
  {
    var e, rest, left := s.pc.todo[0], s.pc.todo[1..], s.pc.left;
    assert left + s.pc.todo == left + [e] + rest;
    DropMiddle(left, e, rest);
  }

  lemma RestoreNextKeepsInv(s: State, update: Update)
    requires Inv(s) && Enabled(s, RestoreNext(update))
    ensures Inv(Apply(s, RestoreNext(update)))
  {
    RestoreNextKeepsTodo(s, update);
  }

  lemma DropMiddle(left: Journal, e: Entry, rest: Journal)
    requires JournalOk(left + [e] + rest)
    ensures JournalOk(left + rest)
    ensures forall x :: x in left + rest ==> x in left + [e] + rest
  {
    var all, some := left + [e] + rest, left + rest;
    assert forall a :: 0 <= a < |some| ==> some[a] == all[if a < |left| then a else a + 1];
  }

  lemma RestoreKeepsInv(s: State, step: Step)
    requires Inv(s) && Enabled(s, step)
    requires step.RestoreStart? || step.RestoreEnd?
    ensures Inv(Apply(s, step))
  {
    if step.RestoreStart? {
      assert [] + s.disk == s.disk;
    } else {
      assert s.pc.left + s.pc.todo == s.pc.left;
    }
  }

  lemma SyncKeepsInv(s: State, step: Step)
    requires Inv(s) && Enabled(s, step)
    requires step.SyncStart? || step.SyncActing? || step.SyncWrite? || step.SyncFail?
    ensures Inv(Apply(s, step))
  {
    if step.SyncStart? {
      LowerIdempotent(step.fqdn);
    }
  }

  lemma OthersKeepInv(s: State, step: Step)
    requires Inv(s) && Enabled(s, step)
    requires step.Crash? || step.Abandon? || step.SetActing? || step.OtherWrite?
    ensures Inv(Apply(s, step))
  {
  }

  lemma StepKeepsInv(s: State, step: Step)
    requires Inv(s) && Enabled(s, step)
    ensures Inv(Apply(s, step))
  {
    if step.RecordName? {
      RecordKeepsTick(s, step.controlPlane);
    } else if step.RestoreNext? {
      RestoreNextKeepsInv(s, step.update);
    } else if step.RestoreStart? || step.RestoreEnd? {
      RestoreKeepsInv(s, step);
    } else if step.SyncStart? || step.SyncActing? || step.SyncWrite? || step.SyncFail? {
      SyncKeepsInv(s, step);
    } else if step.Crash? || step.Abandon? || step.SetActing? || step.OtherWrite? {
      OthersKeepInv(s, step);
    } else if step.Save? || step.TickEnd? {
      SaveKeepsInv(s, step);
    } else if step.Point? {
      PointKeepsInv(s, step.update);
    } else {
      CursorKeepsInv(s, step);
    }
  }

  lemma InitOk(s: State)
    requires Init(s)
    ensures Inv(s)
  {
  }

  lemma {:induction false} InvAlways(states: seq<State>, steps: seq<Step>, k: nat)
    requires IsRun(states, steps) && k < |states|
    ensures Inv(states[k])
  {
    if k == 0 {
      InitOk(states[0]);
    } else {
      InvAlways(states, steps, k - 1);
      assert Follows(states, steps, k - 1);
      StepKeepsInv(states[k - 1], steps[k - 1]);
    }
  }

  // ------------------------------------------------------------------ what one step does to entries

  /** The name is recorded in the tick's memory. */
  predicate Records(s: State, step: Step, h: string) {
    step.RecordName? && s.pc.Ticking? && s.pc.cursor.Looked? && s.pc.cursor.name == h
  }

  /** The tick's memory reaches the disk. */
  predicate Persists(s: State, step: Step) {
    step == Save(Written) || (step == TickEnd(Written) && s.pc.Ticking? && s.pc.changed)
  }

  /** The tick's memory is lost. */
  predicate Forgets(step: Step) {
    step.Crash? || step.TickEnd?
  }

  /** A write of the file leaves it empty. */
  predicate Tears(s: State, step: Step) {
    step == Save(Torn) || (step == TickEnd(Torn) && s.pc.Ticking? && s.pc.changed) || step == RestoreEnd(Torn)
  }

  /** A restore's last save leaves the name out: it was restored, or its original is unknown. */
  predicate Drops(s: State, step: Step, h: string) {
    step == RestoreEnd(Written) && s.pc.Restoring? && Get(s.pc.left, h).None?
  }

  predicate Loses(s: State, step: Step, h: string) {
    Tears(s, step) || Drops(s, step, h)
  }

  lemma LeftIsOnDisk(s: State, h: string)
    requires Inv(s) && s.pc.Restoring? && Get(s.pc.left, h).Some?
    ensures Get(s.disk, h) == Get(s.pc.left, h)
  {
    var e := Get(s.pc.left, h).value;
    assert e in s.pc.left + s.pc.todo;
    GetIn(s.disk, e);
    GetIgnoresCase(s.disk, e.fqdn, h);
  }

  lemma OthersKeepDisk(s: State, step: Step)
    requires Enabled(s, step) && step != RestoreEnd(Written)
    ensures Apply(s, step).disk == if Tears(s, step) then [] else if Persists(s, step) then s.pc.mem else s.disk
  {
    if !step.Save? && !step.TickEnd? && !step.RestoreEnd? {
      NoFileWritten(s, step);
    }
  }

  lemma NoFileWritten(s: State, step: Step)
    requires Enabled(s, step) && !step.Save? && !step.TickEnd? && !step.RestoreEnd?
    ensures Apply(s, step).disk == s.disk
  {
  }

  /** An entry on disk stays as it is until the file is torn or a restore's last save drops it. */
  lemma DiskKeeps(s: State, step: Step, h: string)
    requires Inv(s) && Enabled(s, step) && Get(s.disk, h).Some? && !Loses(s, step, h)
    ensures Get(Apply(s, step).disk, h) == Get(s.disk, h)
  {
    if step == RestoreEnd(Written) {
      LeftIsOnDisk(s, h);
    } else {
      OthersKeepDisk(s, step);
      if Persists(s, step) {
        GetPrefix(s.disk, s.pc.mem, h);
      }
    }
  }

  /** What is on disk after a step was there and is not lost, or comes from the memory of the tick that persists. */
  lemma DiskFrom(s: State, step: Step, h: string)
    requires Inv(s) && Enabled(s, step) && Get(Apply(s, step).disk, h).Some?
    ensures !Loses(s, step, h)
    ensures (Persists(s, step) && s.pc.Ticking? && Get(s.pc.mem, h).Some?) || Get(s.disk, h).Some?
  {
    if step == RestoreEnd(Written) {
      LeftIsOnDisk(s, h);
    } else {
      OthersKeepDisk(s, step);
    }
  }

  lemma MemoryKeeps(s: State, step: Step, h: string)
    requires Inv(s) && Enabled(s, step) && s.pc.Ticking? && Get(s.pc.mem, h).Some? && !Forgets(step)
    ensures Apply(s, step).pc.Ticking? && Get(Apply(s, step).pc.mem, h) == Get(s.pc.mem, h)
  {
    if step.RecordName? {
      var c := s.pc.cursor;
      RecordRemembersFirst(s.pc.mem, c.name, c.live, s.pc.ingress, step.controlPlane, h);
    }
  }

  lemma RecordGains(s: State, cp: bool, h: string)
    requires Enabled(s, RecordName(cp)) && Lower(h) == h && Lower(s.pc.cursor.name) == s.pc.cursor.name
    requires Get(Apply(s, RecordName(cp)).pc.mem, h).Some?
    ensures Get(s.pc.mem, h).Some? || s.pc.cursor.name == h
  {
    var c := s.pc.cursor;
    RecordRemembersFirst(s.pc.mem, c.name, c.live, s.pc.ingress, cp, h);
  }

  lemma OthersGainNothing(s: State, step: Step)
    requires Enabled(s, step) && !step.RecordName? && Apply(s, step).pc.Ticking?
    ensures
      || (s.pc.Ticking? && !Forgets(step) && Apply(s, step).pc.mem == s.pc.mem)
      || (step.TickStart? && Apply(s, step).pc.mem == s.disk)
  {
  }

  /** What a tick's memory has after a step it had before, or records, or loads from the disk. */
  lemma MemoryFrom(s: State, step: Step, h: string)
    requires Inv(s) && Enabled(s, step) && Lower(h) == h
    requires Apply(s, step).pc.Ticking? && Get(Apply(s, step).pc.mem, h).Some?
    ensures
      || (s.pc.Ticking? && Get(s.pc.mem, h).Some? && !Forgets(step))
      || Records(s, step, h)
      || (step.TickStart? && Get(s.disk, h).Some?)
  {
    if step.RecordName? {
      RecordGains(s, step.controlPlane, h);
    } else {
      OthersGainNothing(s, step);
    }
  }

  lemma RecordingHolds(s: State, step: Step, h: string)
    requires Inv(s) && Enabled(s, step) && Records(s, step, h)
    ensures Apply(s, step).pc.Ticking? && Get(Apply(s, step).pc.mem, h).Some?
    ensures Get(Apply(s, step).pc.mem, h).value.original == s.pc.cursor.live
  {
    var c := s.pc.cursor;
    RecordRemembersFirst(s.pc.mem, c.name, c.live, s.pc.ingress, step.controlPlane, h);
  }

  /** The step may change where `h` points. */
  predicate Touches(s: State, step: Step, h: string) {
    match step
    case Point(update) => !update.Refused? && s.pc.Ticking? && s.pc.cursor == Pointing(h)
    case RestoreNext(update) =>
      !update.Refused? && s.pc.Restoring? && s.pc.todo != [] && Known(s.pc.todo[0]) && s.pc.todo[0].fqdn == h
    case SyncWrite(id, _) => id in s.syncs && s.syncs[id].name == h
    case OtherWrite(fqdn, _) => Lower(fqdn) == h
    case _ => false
  }

  lemma OtherEntryRestored(s: State, update: Update, h: string)
    requires Inv(s) && Enabled(s, RestoreNext(update)) && !Touches(s, RestoreNext(update), h)
    ensures Lower(h) == h ==> Live(Apply(s, RestoreNext(update)).zone, h) == Live(s.zone, h)
  {
    assert s.pc.todo[0] in s.pc.left + s.pc.todo;
  }

  lemma UntouchedStays(s: State, step: Step, h: string)
    requires Inv(s) && Enabled(s, step) && Lower(h) == h && !Touches(s, step, h)
    ensures Live(Apply(s, step).zone, h) == Live(s.zone, h)
  {
    if step.RestoreNext? {
      OtherEntryRestored(s, step.update, h);
    }
  }

  lemma {:induction false} UntouchedThroughout(states: seq<State>, steps: seq<Step>, a: nat, b: nat, h: string)
    requires IsRun(states, steps) && a <= b < |states| && Lower(h) == h
    requires forall n :: a <= n < b ==> !Touches(states[n], steps[n], h)
    ensures Live(states[b].zone, h) == Live(states[a].zone, h)
    decreases b - a
  {
    if a < b {
      UntouchedThroughout(states, steps, a, b - 1, h);
      InvAlways(states, steps, b - 1);
      assert Follows(states, steps, b - 1);
      UntouchedStays(states[b - 1], steps[b - 1], h);
    }
  }
}
