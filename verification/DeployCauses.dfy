/** No task stops without a cause: a delivered cancel, another task of its deployment, or a row that has ended. */
module DeployCauses {
  import opened Text
  import opened DeployRows
  import opened CancelRegistry
  import opened DeployProtocol
  import opened DeployRuns
  import opened DeployOutcome

  /** Step `n` is some task of `u` doing `op`. */
  predicate ByTaskOf(s: State, step: Step, u: Uuid) {
    step.ByTask? && step.task in s.tasks && s.tasks[step.task].uuid == u
  }

  /** Step `n` registers channel `c` for `u`. */
  ghost predicate Registers(states: seq<State>, steps: seq<Step>, n: nat, c: nat, u: Uuid)
    requires n < |steps| < |states|
  {
    ByTaskOf(states[n], steps[n], u) && steps[n].op.RegisterToken? && states[n].registry.next == c
  }

  /** What an op leaves of the senders: a registration puts one in, an unregistration takes one out. */
  lemma OpSenders(s: State, t: TaskId, op: Op)
    requires t in s.tasks && Ready(s, s.tasks[t], op)
    ensures
      var r, r', u := s.registry, TaskStep(s, t, op).registry, s.tasks[t].uuid;
      && r'.cancels == (if op.RegisterToken? then r.cancels[u := r.next] else if op.UnregisterToken? then Unregister(r, u).cancels else r.cancels)
      && r'.next == if op.RegisterToken? then r.next + 1 else r.next
  {
  }

  lemma EventSenders(s: State, event: Event)
    requires Enabled(s, ByServer(event))
    ensures ServerStep(s, event).registry.next == s.registry.next
    ensures ServerStep(s, event).registry.cancels == if event.Restart? then map[] else s.registry.cancels
  {
    if !event.Restart? && !event.Deliver? {
      EventKeepsRegistry(s, event);
    }
  }

  lemma NextGrows(states: seq<State>, steps: seq<Step>, n: nat)
    requires IsRun(states, steps) && n < |steps|
    ensures states[n + 1].registry.next == states[n].registry.next +
              if steps[n].ByTask? && steps[n].op.RegisterToken? then 1 else 0
  {
    assert Follows(states, steps, n);
    match steps[n]
    case ByTask(t, op) => OpSenders(states[n], t, op);
    case ByServer(event) => EventSenders(states[n], event);
  }

  lemma {:induction false} NextOrdered(states: seq<State>, steps: seq<Step>, m: nat, n: nat)
    requires IsRun(states, steps) && m <= n < |states|
    ensures states[m].registry.next <= states[n].registry.next
    decreases n
  {
    if m < n {
      NextOrdered(states, steps, m, n - 1);
      NextGrows(states, steps, n - 1);
    }
  }

  /** A channel is registered once, for one deployment. */
  lemma RegisteredOnce(states: seq<State>, steps: seq<Step>, m: nat, n: nat, c: nat, u: Uuid, v: Uuid)
    requires IsRun(states, steps) && m < |steps| && n < |steps|
    requires Registers(states, steps, m, c, u) && Registers(states, steps, n, c, v)
    ensures m == n && u == v
  {
    if m < n {
      NextGrows(states, steps, m);
      NextOrdered(states, steps, m + 1, n);
    } else if n < m {
      NextGrows(states, steps, n);
      NextOrdered(states, steps, n + 1, m);
    }
  }

  /** What a step can make of the registry's senders: a registration adds one, an unregistration takes one away. */
  lemma SendersFrom(s: State, step: Step, u: Uuid)
    requires Enabled(s, step) && u in Apply(s, step).registry.cancels
    ensures
      || (u in s.registry.cancels && s.registry.cancels[u] == Apply(s, step).registry.cancels[u])
      || (ByTaskOf(s, step, u) && step.op.RegisterToken? && Apply(s, step).registry.cancels[u] == s.registry.next)
  {
    match step
    case ByTask(t, op) => OpSenders(s, t, op);
    case ByServer(event) => EventSenders(s, event);
  }

  lemma SendersGo(s: State, step: Step, u: Uuid)
    requires Enabled(s, step) && u in s.registry.cancels && step != ByServer(Restart)
    requires u !in Apply(s, step).registry.cancels || Apply(s, step).registry.cancels[u] != s.registry.cancels[u]
    ensures ByTaskOf(s, step, u) && (step.op.RegisterToken? || step.op.UnregisterToken?)
  {
    match step
    case ByTask(t, op) => OpSenders(s, t, op);
    case ByServer(event) => EventSenders(s, event);
  }

  /** The sender that the registry has for `u` was registered for it. */
  lemma {:induction false} SenderRegistered(states: seq<State>, steps: seq<Step>, k: nat, u: Uuid) returns (m: nat)
    requires IsRun(states, steps) && k < |states| && u in states[k].registry.cancels
    ensures m < k && Registers(states, steps, m, states[k].registry.cancels[u], u)
  {
    assert k > 0;
    assert Follows(states, steps, k - 1);
    SendersFrom(states[k - 1], steps[k - 1], u);
    if u in states[k - 1].registry.cancels && states[k - 1].registry.cancels[u] == states[k].registry.cancels[u] {
      m := SenderRegistered(states, steps, k - 1, u);
    } else {
      m := k - 1;
    }
  }

  lemma OpListens(s: State, t: TaskId, op: Op)
    requires t in s.tasks && Ready(s, s.tasks[t], op) && !op.Drop? && TaskStep(s, t, op).tasks[t].rx.Some?
    ensures
      var task, c := s.tasks[t], TaskStep(s, t, op).tasks[t].rx.value;
      || task.rx == Some(c)
      || (op.RegisterToken? && c == s.registry.next)
      || (op.EnterSlot? && task.uuid in s.registry.cancels && s.registry.cancels[task.uuid] == c)
  {
  }

  /** The channel a task listens to was registered for its deployment. */
  lemma {:induction false} ListenedRegistered(states: seq<State>, steps: seq<Step>, k: nat, t: TaskId) returns (m: nat)
    requires IsRun(states, steps) && k < |states| && t in states[k].tasks && states[k].tasks[t].rx.Some?
    ensures m < k && Registers(states, steps, m, states[k].tasks[t].rx.value, states[k].tasks[t].uuid)
  {
    assert k > 0;
    var s, step, task := states[k - 1], steps[k - 1], states[k].tasks[t];
    assert Follows(states, steps, k - 1);
    match step {
      case ByTask(x, op) =>
        if !op.Drop? {
          OpTouchesOneTask(s, x, op);
          if x == t {
            OpListens(s, t, op);
          }
        }
      case ByServer(event) =>
        if !event.Restart? {
          EventKeepsTask(s, event, t);
          EventKeepsLocks(s, event);
        }
    }
    if t in s.tasks && s.tasks[t].uuid == task.uuid && s.tasks[t].rx == task.rx {
      m := ListenedRegistered(states, steps, k - 1, t);
    } else if step == ByTask(t, EnterSlot) {
      m := SenderRegistered(states, steps, k - 1, task.uuid);
    } else {
      m := k - 1;
    }
  }

  /** Step `n` delivers a cancel of `u`, or a task of `u` replaces or removes its token. */
  predicate Meddles(s: State, step: Step, u: Uuid) {
    || step == ByServer(Deliver(u))
    || (ByTaskOf(s, step, u) && (step.op.RegisterToken? || step.op.UnregisterToken?))
  }

  lemma SignalRaises(r: Registry, u: Uuid, c: nat)
    requires c in Signal(r, {u}).channels && Signal(r, {u}).channels[c].value
    ensures c in r.channels && (r.channels[c].value || (u in r.cancels && r.cancels[u] == c))
  {
  }

  lemma OpRaises(s: State, t: TaskId, op: Op, c: nat)
    requires t in s.tasks && Ready(s, s.tasks[t], op)
    requires c in TaskStep(s, t, op).registry.channels && TaskStep(s, t, op).registry.channels[c].value
    requires !(c in s.registry.channels && s.registry.channels[c].value)
    ensures op.RegisterToken? && s.tasks[t].uuid in s.registry.cancels && s.registry.cancels[s.tasks[t].uuid] == c
  {
    if op.RegisterToken? {
      SignalRaises(s.registry, s.tasks[t].uuid, c);
    } else {
      OpOnRegistry(s, t, op);
    }
  }

  lemma EventRaises(s: State, event: Event, c: nat)
    requires Enabled(s, ByServer(event))
    requires c in ServerStep(s, event).registry.channels && ServerStep(s, event).registry.channels[c].value
    requires !(c in s.registry.channels && s.registry.channels[c].value)
    ensures event.Deliver? && event.uuid in s.registry.cancels && s.registry.cancels[event.uuid] == c
  {
    if event.Deliver? {
      SignalRaises(s.registry, event.uuid, c);
    } else if !event.Restart? {
      EventKeepsRegistry(s, event);
    }
  }

  lemma RaisedFrom(s: State, step: Step, c: nat) returns (u: Uuid)
    requires Enabled(s, step) && c in Apply(s, step).registry.channels && Apply(s, step).registry.channels[c].value
    requires !(c in s.registry.channels && s.registry.channels[c].value)
    ensures u in s.registry.cancels && s.registry.cancels[u] == c && Meddles(s, step, u)
  {
    match step
    case ByTask(t, op) =>
      OpRaises(s, t, op, c);
      u := s.tasks[t].uuid;
    case ByServer(event) =>
      EventRaises(s, event, c);
      u := event.uuid;
  }

  lemma RaisedAt(states: seq<State>, steps: seq<Step>, n: nat, c: nat, m: nat, u: Uuid)
    requires IsRun(states, steps) && n < |steps| && m < |steps| && Registers(states, steps, m, c, u)
    requires !Raised(states[n], c) && Raised(states[n + 1], c)
    ensures m < n && Meddles(states[n], steps[n], u)
  {
    assert Follows(states, steps, n);
    var v := RaisedFrom(states[n], steps[n], c);
    var o := SenderRegistered(states, steps, n, v);
    RegisteredOnce(states, steps, m, o, c, u, v);
  }

  predicate Raised(s: State, c: nat) {
    c in s.registry.channels && s.registry.channels[c].value
  }

  lemma {:induction false} FirstRaise(states: seq<State>, steps: seq<Step>, k: nat, c: nat) returns (n: nat)
    requires IsRun(states, steps) && k < |states| && Raised(states[k], c)
    ensures n < k && !Raised(states[n], c) && Raised(states[n + 1], c)
  {
    if Raised(states[k - 1], c) {
      n := FirstRaise(states, steps, k - 1, c);
    } else {
      n := k - 1;
    }
  }

  /** A raised channel was raised after its registration, by a meddling step of its deployment. */
  lemma RaisedSince(states: seq<State>, steps: seq<Step>, k: nat, c: nat, m: nat, u: Uuid) returns (n: nat)
    requires IsRun(states, steps) && k < |states| && m < |steps| && Registers(states, steps, m, c, u) && Raised(states[k], c)
    ensures m < n < k && Meddles(states[n], steps[n], u)
  {
    n := FirstRaise(states, steps, k, c);
    RaisedAt(states, steps, n, c, m, u);
  }

  /** A sender that is gone before step `k`, no restart since, went by such a step. */
  lemma {:induction false} GoneSince(states: seq<State>, steps: seq<Step>, k: nat, c: nat, m: nat, u: Uuid) returns (n: nat)
    requires IsRun(states, steps) && m < k < |states| && Registers(states, steps, m, c, u)
    requires !(u in states[k].registry.cancels && states[k].registry.cancels[u] == c)
    requires forall x :: m < x < k ==> steps[x] != ByServer(Restart)
    ensures m < n < k && Meddles(states[n], steps[n], u)
  {
    assert Follows(states, steps, k - 1);
    var s := states[k - 1];
    if k > m + 1 {
      if u in s.registry.cancels && s.registry.cancels[u] == c {
        n := k - 1;
        SendersGo(s, steps[n], u);
      } else {
        n := GoneSince(states, steps, k - 1, c, m, u);
      }
    }
  }

  lemma OpChannels(s: State, t: TaskId, op: Op)
    requires t in s.tasks && Ready(s, s.tasks[t], op)
    ensures TaskStep(s, t, op).registry.channels.Keys <= s.registry.channels.Keys + {s.registry.next}
    ensures !op.RegisterToken? ==> TaskStep(s, t, op).registry.channels.Keys == s.registry.channels.Keys
  {
    if !op.RegisterToken? {
      OpOnRegistry(s, t, op);
    }
  }

  lemma EventChannels(s: State, event: Event)
    requires Enabled(s, ByServer(event))
    ensures ServerStep(s, event).registry.channels.Keys == if event.Restart? then {} else s.registry.channels.Keys
  {
    if !event.Restart? && !event.Deliver? {
      EventKeepsRegistry(s, event);
    }
  }

  lemma ChannelsFrom(states: seq<State>, steps: seq<Step>, n: nat, c: nat)
    requires IsRun(states, steps) && n < |steps| && c < states[n].registry.next
    ensures c !in states[n].registry.channels ==> c !in states[n + 1].registry.channels
    ensures steps[n] == ByServer(Restart) ==> c !in states[n + 1].registry.channels
  {
    assert Follows(states, steps, n);
    match steps[n]
    case ByTask(t, op) => OpChannels(states[n], t, op);
    case ByServer(event) => EventChannels(states[n], event);
  }

  /** A restart ends every channel, so one that is there was registered after the last restart. */
  lemma {:induction false} NoRestartSince(states: seq<State>, steps: seq<Step>, k: nat, c: nat, m: nat, u: Uuid, x: nat)
    requires IsRun(states, steps) && m < x < k < |states| && Registers(states, steps, m, c, u) && steps[x] == ByServer(Restart)
    ensures c !in states[k].registry.channels
    decreases k
  {
    NextGrows(states, steps, m);
    NextOrdered(states, steps, m + 1, k - 1);
    ChannelsFrom(states, steps, k - 1, c);
    if k > x + 1 {
      NoRestartSince(states, steps, k - 1, c, m, u, x);
    }
  }

  /**
   Whenever a task stops short, its row has ended or is gone, or, since the token was registered that it
   listens to or that the registry has for its deployment, a cancel of its deployment was delivered or a task of its deployment replaced or removed the token.
   */
  lemma StopHasCause(states: seq<State>, steps: seq<Step>, k: nat, t: TaskId) returns (m: nat, n: nat, c: nat)
    requires IsRun(states, steps) && k < |steps| && StopsShort(states[k], steps[k], t)
    ensures
      var task := states[k].tasks[t];
      var u := task.uuid;
      || (steps[k].op.MarkRunning? && (u !in states[k].rows || states[k].rows[u].status !in {Queued, Running, Building}))
      || (m < n < k && Registers(states, steps, m, c, u) && Meddles(states[n], steps[n], u)
          && (task.rx == Some(c) || (u in states[k].registry.cancels && states[k].registry.cancels[u] == c)))
  {
    InvAlways(states, steps, k);
    var task, r := states[k].tasks[t], states[k].registry;
    m, n, c := 0, 0, 0;
    if steps[k].op.MarkRunning? {
    } else if Heard(r, task.rx) {
      c := task.rx.value;
      m := ListenedRegistered(states, steps, k, t);
      n := RaisedSince(states, steps, k, c, m, task.uuid);
    } else if (steps[k].op.CheckBefore? || steps[k].op.CheckAfter?) && Flagged(r, task.uuid) {
      c := r.cancels[task.uuid];
      m := SenderRegistered(states, steps, k, task.uuid);
      n := RaisedSince(states, steps, k, c, m, task.uuid);
    } else {
      c := task.rx.value;
      m := ListenedRegistered(states, steps, k, t);
      forall x | m < x < k
        ensures steps[x] != ByServer(Restart)
      {
        if steps[x] == ByServer(Restart) {
          NoRestartSince(states, steps, k, c, m, task.uuid, x);
        }
      }
      n := GoneSince(states, steps, k, c, m, task.uuid);
    }
  }

  /** A cancel is delivered only for a deployment that a start, a user or a teardown had cancelled. */
  lemma {:induction false} DeliveredIsCancelled(states: seq<State>, steps: seq<Step>, k: nat, u: Uuid)
    requires IsRun(states, steps) && k < |states| && u in states[k].signals
    ensures u in states[k].signalled
  {
    assert k > 0;
    assert Follows(states, steps, k - 1);
    if u in states[k - 1].signals {
      DeliveredIsCancelled(states, steps, k - 1, u);
    }
    match steps[k - 1]
    case ByTask(t, op) => OpOwes(states[k - 1], t, op, u);
    case ByServer(event) => EventOwes(states[k - 1], event, u);
  }

  lemma OpOwes(s: State, t: TaskId, op: Op, u: Uuid)
    requires t in s.tasks && Ready(s, s.tasks[t], op) && u in TaskStep(s, t, op).signals && (u in s.signals ==> u in s.signalled)
    ensures u in TaskStep(s, t, op).signalled
  {
  }

  lemma EventOwes(s: State, event: Event, u: Uuid)
    requires Enabled(s, ByServer(event)) && u in ServerStep(s, event).signals && (u in s.signals ==> u in s.signalled)
    ensures u in ServerStep(s, event).signalled
  {
  }

  /** A writer that signals cancels the row of `u`: a start, a user or a teardown. */
  predicate CancelsRow(before: Rows, step: Step, after: Rows, u: Uuid) {
    && u in before && u in after && before[u].status in {Queued, Running, Building, Pending, Deploying} && after[u].status == Cancelled
    && if step.ByTask? then step.op == Supersede else step.event == UserCancel(u) || step.event.Teardown?
  }

  lemma OpOwesAnew(s: State, t: TaskId, op: Op, u: Uuid)
    requires t in s.tasks && Ready(s, s.tasks[t], op) && u in TaskStep(s, t, op).signals && u !in s.signals
    ensures CancelsRow(s.rows, ByTask(t, op), TaskStep(s, t, op).rows, u)
  {
  }

  lemma EventOwesAnew(s: State, event: Event, u: Uuid)
    requires Enabled(s, ByServer(event)) && u in ServerStep(s, event).signals
    ensures !event.Restart? && (u in s.signals || CancelsRow(s.rows, ByServer(event), ServerStep(s, event).rows, u))
  {
  }

  /** A signal still to come belongs to such a write, since which the process has not restarted. */
  lemma {:induction false} OwedSince(states: seq<State>, steps: seq<Step>, k: nat, u: Uuid) returns (j: nat)
    requires IsRun(states, steps) && k < |states| && u in states[k].signals
    ensures j < k && CancelsRow(states[j].rows, steps[j], states[j + 1].rows, u)
    ensures forall n :: j <= n < k ==> steps[n] != ByServer(Restart)
  {
    assert k > 0;
    assert Follows(states, steps, k - 1);
    if steps[k - 1].ByServer? {
      EventOwesAnew(states[k - 1], steps[k - 1].event, u);
    }
    if u in states[k - 1].signals {
      j := OwedSince(states, steps, k - 1, u);
    } else {
      j := k - 1;
      if steps[j].ByTask? {
        OpOwesAnew(states[j], steps[j].task, steps[j].op, u);
      }
    }
  }

  /** A cancel is delivered only after a start, a user or a teardown has cancelled the row in the same process. */
  lemma DeliveryFollowsCancel(states: seq<State>, steps: seq<Step>, k: nat, u: Uuid) returns (j: nat)
    requires IsRun(states, steps) && k < |steps| && steps[k] == ByServer(Deliver(u))
    ensures j < k && CancelsRow(states[j].rows, steps[j], states[j + 1].rows, u)
    ensures forall n :: j <= n < k ==> steps[n] != ByServer(Restart)
  {
    assert Follows(states, steps, k);
    j := OwedSince(states, steps, k, u);
  }

  lemma OpKeepsResuming(s: State, t: TaskId, op: Op)
    requires t in s.tasks && Ready(s, s.tasks[t], op)
    ensures TaskStep(s, t, op).resuming == s.resuming
  {
  }

  lemma EventResumes(s: State, event: Event, u: Uuid)
    requires Enabled(s, ByServer(event)) && u in ServerStep(s, event).resuming
    ensures !event.Restart? && event != FailMissing(u)
    ensures u in s.resuming || (event == Claim(u) && u in s.rows && s.rows[u].status == Queued)
  {
  }

  /** Only a deployment that the resume took from the queue, in the same process and once, is failed for want of its project. */
  lemma {:induction false} ResumingSince(states: seq<State>, steps: seq<Step>, k: nat, u: Uuid) returns (j: nat)
    requires IsRun(states, steps) && k < |states| && u in states[k].resuming
    ensures j < k && steps[j] == ByServer(Claim(u)) && u in states[j].rows && states[j].rows[u].status == Queued
    ensures forall n :: j <= n < k ==> steps[n] != ByServer(Restart) && steps[n] != ByServer(FailMissing(u))
  {
    assert k > 0;
    assert Follows(states, steps, k - 1);
    match steps[k - 1] {
      case ByTask(t, op) => OpKeepsResuming(states[k - 1], t, op);
      case ByServer(event) => EventResumes(states[k - 1], event, u);
    }
    if u in states[k - 1].resuming {
      j := ResumingSince(states, steps, k - 1, u);
    } else {
      j := k - 1;
    }
  }

  lemma MissingWasClaimed(states: seq<State>, steps: seq<Step>, k: nat, u: Uuid) returns (j: nat)
    requires IsRun(states, steps) && k < |steps| && steps[k] == ByServer(FailMissing(u))
    ensures j < k && steps[j] == ByServer(Claim(u)) && u in states[j].rows && states[j].rows[u].status == Queued
    ensures forall n :: j <= n < k ==> steps[n] != ByServer(Restart) && steps[n] != ByServer(FailMissing(u))
  {
    assert Follows(states, steps, k);
    j := ResumingSince(states, steps, k, u);
  }

  // ---------------------------------------------------------------------- what a build listens to

  predicate InQueue(pc: Pc) {
    pc.Subscribed? || pc.Waiting? || InSlot(pc)
  }

  lemma OpQueues(s: State, t: TaskId, op: Op)
    requires t in s.tasks && Ready(s, s.tasks[t], op) && !op.Drop? && InQueue(TaskStep(s, t, op).tasks[t].pc)
    ensures
      var task, rx := s.tasks[t], TaskStep(s, t, op).tasks[t].rx;
      if op.EnterSlot? then rx == if task.uuid in s.registry.cancels then Some(s.registry.cancels[task.uuid]) else None
      else InQueue(task.pc) && rx == task.rx
  {
  }

  /** From the queue on, a task listens to the token that its deployment had when it entered, if it had one. */
  lemma {:induction false} EnteredWith(states: seq<State>, steps: seq<Step>, k: nat, t: TaskId) returns (j: nat)
    requires IsRun(states, steps) && k < |states| && t in states[k].tasks && InQueue(states[k].tasks[t].pc)
    ensures j < k && steps[j] == ByTask(t, EnterSlot) && t in states[j].tasks && states[j].tasks[t].uuid == states[k].tasks[t].uuid
    ensures
      var u, r := states[k].tasks[t].uuid, states[j].registry;
      states[k].tasks[t].rx == if u in r.cancels then Some(r.cancels[u]) else None
  {
    assert k > 0;
    var s, step := states[k - 1], steps[k - 1];
    assert Follows(states, steps, k - 1);
    match step {
      case ByTask(x, op) =>
        if !op.Drop? {
          OpTouchesOneTask(s, x, op);
          if x == t {
            OpQueues(s, t, op);
          }
        }
      case ByServer(event) =>
        if !event.Restart? {
          EventKeepsTask(s, event, t);
        }
    }
    if step == ByTask(t, EnterSlot) {
      j := k - 1;
    } else {
      j := EnteredWith(states, steps, k - 1, t);
    }
  }

  /**
   A running build whose deployment had a token when it entered the queue, and whose row a start, a user
   or a teardown has cancelled, can be interrupted, or the signal is still to come.
   */
  lemma CancelReachesRegistered(states: seq<State>, steps: seq<Step>, k: nat, t: TaskId) returns (j: nat)
    requires IsRun(states, steps) && k < |states| && t in states[k].tasks && states[k].tasks[t].pc.Working?
    ensures j < k && steps[j] == ByTask(t, EnterSlot)
    ensures
      var u := states[k].tasks[t].uuid;
      u in states[j].registry.cancels && u in states[k].signalled ==> u in states[k].signals || Enabled(states[k], ByTask(t, Interrupt))
  {
    j := EnteredWith(states, steps, k, t);
    var u := states[k].tasks[t].uuid;
    if u in states[j].registry.cancels && u in states[k].signalled {
      CancelReachesBuild(states, steps, k, t);
    }
  }

  // ------------------------------------------------------------------------- spellings of a node

  /** Step `i` starts task `t`, to build on the server with this id. */
  predicate StartsOn(step: Step, t: TaskId, serverId: string) {
    && step.ByServer?
    && match step.event
       case Spawn(x, _, id) => x == t && id == serverId
       case SpawnUnrecorded(x, _, _, id) => x == t && id == serverId
       case _ => false
  }

  lemma {:induction false} NodeIsKey(states: seq<State>, steps: seq<Step>, i: nat, k: nat, t: TaskId, serverId: string)
    requires IsRun(states, steps) && i < k < |states| && StartsOn(steps[i], t, serverId) && Undropped(steps, t, i, k)
    ensures t in states[k].tasks && states[k].tasks[t].node == NodeKey(serverId)
    decreases k
  {
    assert Follows(states, steps, k - 1);
    if k > i + 1 {
      NodeIsKey(states, steps, i, k - 1, t, serverId);
      match steps[k - 1] {
        case ByTask(x, op) =>
          if !op.Drop? {
            OpTouchesOneTask(states[k - 1], x, op);
          }
        case ByServer(event) => EventKeepsTask(states[k - 1], event, t);
      }
    }
  }

  /** Two tasks started on ids that differ only in the spaces around them never build at the same time. */
  lemma SpellingsExcludeEachOther(states: seq<State>, steps: seq<Step>, i: nat, i': nat, k: nat, t: TaskId, t': TaskId,
                                  left: string, left': string, id: string, right: string, right': string)
    requires IsRun(states, steps) && i < k < |states| && i' < k && t != t'
    requires AllSpaces(left) && AllSpaces(left') && AllSpaces(right) && AllSpaces(right') && Bare(id)
    requires StartsOn(steps[i], t, left + id + right) && Undropped(steps, t, i, k)
    requires StartsOn(steps[i'], t', left' + id + right') && Undropped(steps, t', i', k)
    ensures t in states[k].tasks && t' in states[k].tasks
    ensures !(states[k].tasks[t].pc.Working? && states[k].tasks[t'].pc.Working?)
  {
    NodeIsKey(states, steps, i, k, t, left + id + right);
    NodeIsKey(states, steps, i', k, t', left' + id + right');
    NodeKeyIs(left, id, right);
    NodeKeyIs(left', id, right');
    if states[k].tasks[t].pc.Working? && states[k].tasks[t'].pc.Working? {
      BuildsExcludeEachOther(states, steps, k, t, t');
    }
  }
}
