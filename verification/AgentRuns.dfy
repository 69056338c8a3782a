/**
 The `agent_runs` table: leases taken by `claim`, kept by `renew`, recovered when they expire, and the
 user's pause, resume and retry. Every write but a routine's last is one guarded update; times are
 instants of the database clock, in seconds.
 */
module AgentRuns {
  import opened Text

  const LEASE_SECS: real := 90.0
  const MAX_ATTEMPTS: int := 3

  datatype Status = Pending | Queued | Running | Paused | Completed | Failed | Cancelled

  /** `routine` is the run's kind: a routine is created running, without a lease or a message to replay. */
  datatype Run = Run(
    agent: string,
    message: string,
    status: Status,
    owner: Option<string>,
    deadline: Option<real>,
    attempts: int,
    routine: bool)

  datatype Role = User | Assistant
  datatype Message = Message(id: int, agent: string, role: Role)

  datatype Db = Db(runs: map<string, Run>, messages: map<string, Message>)

  datatype Control = Resume | Retry

  /** `OPEN_STATUSES`: what the end of a run may still overwrite. */
  predicate Open(s: Status) {
    s.Pending? || s.Queued? || s.Running?
  }

  predicate Replayable(db: Db, run: Run) {
    run.message in db.messages
  }

  /** The guard of a recovery pass; `includeUnleased` is set at boot only. */
  predicate Expired(run: Run, includeUnleased: bool, now: real) {
    && run.status.Running?
    && if includeUnleased then run.deadline.None? || run.deadline.value < now
       else run.owner.Some? && run.deadline.Some? && run.deadline.value < now
  }

  /** Interrupted too often, or nothing to replay. */
  predicate GivesUp(db: Db, run: Run) {
    run.attempts >= MAX_ATTEMPTS || !Replayable(db, run)
  }

  function Release(run: Run, st: Status): Run {
    run.(status := st, owner := None, deadline := None)
  }

  predicate MessageTaken(db: Db, message: string) {
    exists r :: r in db.runs && db.runs[r].message == message
  }

  /** `enqueue`: nothing when some run already answers the message, and the unique index forbids a second. */
  function Enqueue(db: Db, run: string, agent: string, message: string, st: Status): Db {
    if MessageTaken(db, message) || run in db.runs then db
    else db.(runs := db.runs[run := Run(agent, message, st, None, None, 0, st.Running?)])
  }

  predicate ClaimWins(db: Db, run: string) {
    run in db.runs && db.runs[run].status.Pending?
  }

  function Claim(db: Db, run: string, owner: string, now: real): Db {
    if ClaimWins(db, run) then
      var r := db.runs[run];
      db.(runs := db.runs[run := r.(status := Running, owner := Some(owner), deadline := Some(now + LEASE_SECS),
                                    attempts := r.attempts + 1)])
    else db
  }

  predicate RenewWins(db: Db, run: string, owner: string) {
    run in db.runs && db.runs[run].status.Running? && db.runs[run].owner == Some(owner)
  }

  function Renew(db: Db, run: string, owner: string, now: real): Db {
    if RenewWins(db, run, owner)
    then db.(runs := db.runs[run := db.runs[run].(deadline := Some(now + LEASE_SECS))])
    else db
  }

  function FailHits(db: Db, includeUnleased: bool, now: real): set<string> {
    set r | r in db.runs && Expired(db.runs[r], includeUnleased, now) && GivesUp(db, db.runs[r])
  }

  function RequeueHits(db: Db, includeUnleased: bool, now: real): set<string> {
    set r | r in db.runs && Expired(db.runs[r], includeUnleased, now)
  }

  function ReleaseAll(db: Db, hits: set<string>, st: Status): Db {
    db.(runs := map r | r in db.runs :: if r in hits then Release(db.runs[r], st) else db.runs[r])
  }

  /** The two updates of a recovery pass, each with its own reading of the clock. */
  function Recover(db: Db, includeUnleased: bool, now: real, later: real): Db {
    var failed := ReleaseAll(db, FailHits(db, includeUnleased, now), Failed);
    ReleaseAll(failed, RequeueHits(failed, includeUnleased, later), Pending)
  }

  /** `seen` is the status read before the guarded update. */
  predicate PauseWins(db: Db, run: string, seen: Status) {
    Open(seen) && run in db.runs && db.runs[run].status == seen
  }

  function Pause(db: Db, run: string, seen: Status): Db {
    if PauseWins(db, run, seen) then db.(runs := db.runs[run := Release(db.runs[run], Paused)]) else db
  }

  function Expected(action: Control): Status {
    if action.Resume? then Paused else Failed
  }

  /** The message is attached elsewhere, so the unique index rejects the update. */
  predicate TakenElsewhere(db: Db, run: string, message: string) {
    exists r :: r in db.runs && r != run && db.runs[r].message == message
  }

  predicate RestartWins(db: Db, run: string, action: Control, message: string) {
    run in db.runs && db.runs[run].status == Expected(action) && !TakenElsewhere(db, run, message)
  }

  /** The guarded update of resume and retry, attaching the run to `message`. */
  function Restart(db: Db, run: string, action: Control, message: string): Db {
    if RestartWins(db, run, action, message) then
      var r := Release(db.runs[run], Pending);
      db.(runs := db.runs[run := r.(message := message, attempts := if action.Retry? then 0 else r.attempts)])
    else db
  }

  predicate FinishWins(db: Db, run: string) {
    run in db.runs && Open(db.runs[run].status)
  }

  function Finish(db: Db, run: string, st: Status): Db {
    if FinishWins(db, run) then db.(runs := db.runs[run := Release(db.runs[run], st)]) else db
  }

  /** A routine's last write of its own run: the status alone, whatever it was. */
  function RoutineEnd(db: Db, run: string, st: Status): Db {
    if run in db.runs && db.runs[run].routine
    then db.(runs := db.runs[run := db.runs[run].(status := st)])
    else db
  }

  /** A worker run waiting for a place becomes pending. */
  function Promote(db: Db, run: string): Db {
    if run in db.runs && db.runs[run].status.Queued?
    then db.(runs := db.runs[run := db.runs[run].(status := Pending)])
    else db
  }

  /** The user cancels a run that has not begun. */
  function CancelPending(db: Db, run: string): Db {
    if run in db.runs && (db.runs[run].status.Queued? || db.runs[run].status.Pending?)
    then db.(runs := db.runs[run := db.runs[run].(status := Cancelled)])
    else db
  }

  /** A new row of `agent_messages`; its id exceeds every earlier one and its uuid is fresh. */
  function AddMessage(db: Db, uuid: string, m: Message): Db {
    if uuid in db.messages then db else db.(messages := db.messages[uuid := m])
  }

  function MessageId(db: Db, message: string): int {
    if message in db.messages then db.messages[message].id else 0
  }

  /** `assistant_already_replied`. */
  predicate Replied(db: Db, agent: string, message: string) {
    exists m :: m in db.messages && db.messages[m].agent == agent && db.messages[m].role.Assistant?
                && db.messages[m].id > MessageId(db, message)
  }

  datatype ControlOutcome = Changed(status: Status, restart: bool) | Unchanged(status: Status) | Refused

  /** The table and the thread, changed in place. */
  class AgentStore {
    var db: Db
    var nextId: int

    ghost predicate Valid()
      reads this
    {
      && 0 < nextId
      && (forall m :: m in db.messages ==> 0 < db.messages[m].id < nextId)
      && (forall m, m' :: m in db.messages && m' in db.messages && db.messages[m].id == db.messages[m'].id ==> m == m')
    }

    constructor ()
      ensures Valid() && db == Db(map[], map[])
    {
      db := Db(map[], map[]);
      nextId := 1;
    }

    method Append(uuid: string, agent: string, role: Role)
      requires Valid() && uuid !in db.messages
      modifies this
      ensures Valid() && nextId == old(nextId) + 1
      ensures db == AddMessage(old(db), uuid, Message(old(nextId), agent, role))
    {
      db := AddMessage(db, uuid, Message(nextId, agent, role));
      nextId := nextId + 1;
    }

    /** Idempotent on the message: the run that answers it is returned, new or not. */
    method EnqueueRun(newUuid: string, agent: string, message: string) returns (run: string)
      requires Valid() && newUuid !in db.runs
      modifies this`db
      ensures Valid() && db == Enqueue(old(db), newUuid, agent, message, Pending)
      ensures run in db.runs && db.runs[run].message == message
      ensures (exists r :: r in old(db).runs && old(db).runs[r].message == message) ==> db == old(db)
      ensures (forall r :: r in old(db).runs ==> old(db).runs[r].message != message) ==>
                && run == newUuid && db.messages == old(db).messages
                && db.runs == old(db).runs[newUuid := Run(agent, message, Pending, None, None, 0, false)]
    {
      if r :| r in db.runs && db.runs[r].message == message {
        run := r;
      } else {
        run := newUuid;
        db := Enqueue(db, newUuid, agent, message, Pending);
      }
    }

    method TryClaimAs(run: string, owner: string, now: real) returns (won: bool)
      requires Valid()
      modifies this`db
      ensures Valid() && db == Claim(old(db), run, owner, now)
      ensures won <==> run in old(db).runs && old(db).runs[run].status == Pending
      ensures won ==>
                run in db.runs
                && db.runs[run] == old(db).runs[run].(status := Running, owner := Some(owner), deadline := Some(now + 90.0),
                                                      attempts := old(db).runs[run].attempts + 1)
      ensures !won ==> db == old(db)
      ensures db.messages == old(db).messages && db.runs.Keys == old(db).runs.Keys
      ensures forall r :: r != run && r in old(db).runs ==> db.runs[r] == old(db).runs[r]
      ensures won ==> RenewWins(db, run, owner) && !ClaimWins(db, run)
    {
      won := ClaimWins(db, run);
      db := Claim(db, run, owner, now);
    }

    /**
     The owner that still holds the running run has its lease until 90 seconds from now; anybody else,
     and a run paused, ended or recovered meanwhile, is told no, and nothing changes.
     */
    method RenewLease(run: string, owner: string, now: real) returns (held: bool)
      requires Valid()
      modifies this`db
      ensures Valid()
      ensures held <==> run in old(db).runs && old(db).runs[run].status == Running && old(db).runs[run].owner == Some(owner)
      ensures held ==> run in db.runs && db.runs[run] == old(db).runs[run].(deadline := Some(now + 90.0))
      ensures held ==> !Expired(db.runs[run], false, now + 90.0) && !Expired(db.runs[run], true, now + 90.0)
      ensures !held ==> db == old(db)
      ensures db.messages == old(db).messages && db.runs.Keys == old(db).runs.Keys
      ensures forall r :: r != run && r in old(db).runs ==> db.runs[r] == old(db).runs[r]
      ensures db == Renew(old(db), run, owner, now)
    {
      held := RenewWins(db, run, owner);
      db := Renew(db, run, owner, now);
    }

    /**
     A running run is cut off when its deadline has passed; at boot also when it has none, otherwise only
     if it has an owner. At the first reading of the clock the cut off that have had three attempts or
     have no message to replay are failed; those cut off at the second and not failed are made pending.
     Either way the lease goes. Every other run stays as it is.
     */
    method RecoverExpired(includeUnleased: bool, now: real, later: real) returns (requeued: set<string>, failed: set<string>)
      requires Valid() && now <= later
      modifies this`db
      ensures Valid() && db == Recover(old(db), includeUnleased, now, later)
      ensures failed == FailHits(old(db), includeUnleased, now)
      ensures requeued == RequeueHits(old(db), includeUnleased, later) - failed
      ensures db.messages == old(db).messages && db.runs.Keys == old(db).runs.Keys
      ensures forall r :: r in old(db).runs ==>
                var run := old(db).runs[r];
                var spent := run.attempts >= 3 || run.message !in old(db).messages;
                var leased := includeUnleased || run.owner.Some?;
                var cut := run.status == Running && leased && if run.deadline.Some? then run.deadline.value < now else includeUnleased;
                var cutLater := run.status == Running && leased && if run.deadline.Some? then run.deadline.value < later else includeUnleased;
                && (r in failed <==> cut && spent)
                && (r in requeued <==> cutLater && !(cut && spent))
                && (r in failed ==> db.runs[r] == run.(status := Failed, owner := None, deadline := None))
                && (r in requeued ==> db.runs[r] == run.(status := Pending, owner := None, deadline := None))
                && (r !in failed && r !in requeued ==> db.runs[r] == run)
    {
      failed := FailHits(db, includeUnleased, now);
      db := ReleaseAll(db, failed, Failed);
      requeued := RequeueHits(db, includeUnleased, later);
      db := ReleaseAll(db, requeued, Pending);
    }

    method PauseRun(run: string) returns (outcome: ControlOutcome)
      requires Valid()
      modifies this`db
      ensures Valid()
      ensures run !in old(db).runs ==> outcome == Refused && db == old(db)
      ensures run in old(db).runs ==>
                var st := old(db).runs[run].status;
                && db == Pause(old(db), run, st)
                && outcome == (if st.Paused? then Unchanged(Paused)
                               else if st in {Pending, Queued, Running} then Changed(Paused, false) else Refused)
                && run in db.runs
                && db.runs[run] == (if st in {Pending, Queued, Running} then old(db).runs[run].(status := Paused, owner := None, deadline := None)
                                    else old(db).runs[run])
      ensures db.messages == old(db).messages && db.runs.Keys == old(db).runs.Keys
      ensures forall r :: r != run && r in old(db).runs ==> db.runs[r] == old(db).runs[r]
    {
      if run !in db.runs {
        return Refused;
      }
      var st := db.runs[run].status;
      if st.Paused? {
        return Unchanged(Paused);
      }
      if !Open(st) {
        return Refused;
      }
      db := Pause(db, run, st);
      outcome := Changed(Paused, false);
    }

    /**
     Resume or retry. A run whose (partial) answer is already in the thread is attached to a new
     message, so a successful restart always leaves it facing a message with no later reply.
     */
    method RestartRun(run: string, action: Control, newUuid: string) returns (outcome: ControlOutcome)
      requires Valid() && newUuid !in db.messages && !MessageTaken(db, newUuid)
      requires MessagesDistinct(db)
      modifies this
      ensures Valid() && MessagesDistinct(db)
      ensures outcome.Changed? <==>
                && run in old(db).runs
                && old(db).runs[run].status == (if action.Resume? then Paused else Failed)
                && old(db).runs[run].message in old(db).messages
      ensures outcome.Changed? ==>
                && outcome == Changed(Pending, true)
                && run in db.runs
                && db.runs[run] == old(db).runs[run].(status := Pending, owner := None, deadline := None, message := db.runs[run].message,
                                                      attempts := if action.Retry? then 0 else old(db).runs[run].attempts)
                && db.runs[run].message in db.messages
                && !exists m :: m in db.messages && db.messages[m].agent == db.runs[run].agent && db.messages[m].role == Assistant
                                && db.messages[m].id > db.messages[db.runs[run].message].id
      ensures outcome.Changed? ==>
                var was := old(db).runs[run];
                db.runs[run].message ==
                if exists m :: m in old(db).messages && old(db).messages[m].agent == was.agent && old(db).messages[m].role == Assistant
                               && old(db).messages[m].id > old(db).messages[was.message].id
                then newUuid else was.message
      ensures forall r :: r != run && r in old(db).runs ==> r in db.runs && db.runs[r] == old(db).runs[r]
      ensures !outcome.Changed? ==> db == old(db)
      ensures outcome.Unchanged? <==> run in old(db).runs && old(db).runs[run].status in {Pending, Queued, Running}
    {
      outcome := JudgeRestart(run, action);
      if outcome.Changed? {
        var message := FacingMessage(run, newUuid);
        AttachRun(run, action, message);
      }
    }

    /** The rules of a restart, on the status and message read first. */
    method JudgeRestart(run: string, action: Control) returns (outcome: ControlOutcome)
      ensures outcome.Changed? <==>
                run in db.runs && db.runs[run].status == (if action.Resume? then Paused else Failed) && db.runs[run].message in db.messages
      ensures outcome.Changed? ==> outcome == Changed(Pending, true)
      ensures outcome.Unchanged? <==> run in db.runs && db.runs[run].status in {Pending, Queued, Running}
      ensures outcome.Unchanged? ==> outcome == Unchanged(db.runs[run].status)
    {
      if run !in db.runs {
        return Refused;
      }
      var r := db.runs[run];
      if action.Retry? && r.status.Paused? {
        return Refused;
      }
      if Open(r.status) {
        return Unchanged(r.status);
      }
      if r.status != Expected(action) {
        return Refused;
      }
      if !Replayable(db, r) {
        return Refused;
      }
      outcome := Changed(Pending, true);
    }

    /** The guarded update, on a message that no other run has. */
    method AttachRun(run: string, action: Control, message: string)
      requires Valid() && MessagesDistinct(db) && RestartWins(db, run, action, message)
      modifies this`db
      ensures Valid() && MessagesDistinct(db) && db.messages == old(db).messages
      ensures db.runs.Keys == old(db).runs.Keys && forall r :: r != run && r in db.runs ==> db.runs[r] == old(db).runs[r]
      ensures db.runs[run] == old(db).runs[run].(status := Pending, owner := None, deadline := None, message := message,
                                                 attempts := if action.Retry? then 0 else old(db).runs[run].attempts)
    {
      db := Restart(db, run, action, message);
    }

    /** The message a restart attaches the run to: its own if nobody has answered it, else a new one at the thread's end. */
    method FacingMessage(run: string, newUuid: string) returns (message: string)
      requires Valid() && run in db.runs && Replayable(db, db.runs[run])
      requires newUuid !in db.messages && !MessageTaken(db, newUuid)
      modifies this
      ensures Valid() && db.runs == old(db).runs && message in db.messages
      ensures
        var was := old(db).runs[run];
        message ==
        if exists m :: m in old(db).messages && old(db).messages[m].agent == was.agent && old(db).messages[m].role == Assistant
                       && old(db).messages[m].id > old(db).messages[was.message].id
        then newUuid else was.message
      ensures !Replied(db, db.runs[run].agent, message)
    {
      var r := db.runs[run];
      message := r.message;
      if Replied(db, r.agent, r.message) {
        message := newUuid;
        Append(newUuid, r.agent, User);
      }
      assert MessageId(db, message) == db.messages[message].id;
    }

    /** The end of a run that is still open: it loses its lease. One that is not open stays as it is. */
    method FinishRun(run: string, st: Status)
      requires Valid()
      modifies this`db
      ensures Valid() && db == Finish(old(db), run, st)
      ensures db.messages == old(db).messages && db.runs.Keys == old(db).runs.Keys
      ensures forall r :: r in old(db).runs ==>
                db.runs[r] == if r == run && old(db).runs[r].status in {Pending, Queued, Running}
                              then old(db).runs[r].(status := st, owner := None, deadline := None) else old(db).runs[r]
    {
      db := Finish(db, run, st);
    }
  }

  /** The unique index on `message_uuid`: each message belongs to at most one run. */
  ghost predicate MessagesDistinct(db: Db) {
    forall r, r' :: r in db.runs && r' in db.runs && db.runs[r].message == db.runs[r'].message ==> r == r'
  }
}
