/**
 The registry of cancel tokens: one watch channel per registered deployment. A `watch` sender that
 has no receiver stores nothing, so a signal can be lost.
 */
module CancelRegistry {
  import opened Text
  import opened DeployRows

  type TaskId = nat

  datatype Channel = Channel(value: bool, receivers: set<TaskId>)

  /** `cancels` maps a deployment to the channel whose sender the registry owns; `next` is the next fresh channel. */
  datatype Registry = Registry(cancels: map<Uuid, nat>, channels: map<nat, Channel>, next: nat)

  const Empty := Registry(map[], map[], 0)

  ghost predicate Valid(r: Registry) {
    && (forall u :: u in r.cancels ==> r.cancels[u] in r.channels)
    && (forall u, v :: u in r.cancels && v in r.cancels && r.cancels[u] == r.cancels[v] ==> u == v)
    && (forall c :: c in r.channels ==> c < r.next)
  }

  predicate Targets(r: Registry, hits: set<Uuid>, c: nat) {
    exists u :: u in hits && u in r.cancels && r.cancels[u] == c
  }

  /** `signal_cancel` on every deployment of `hits`. */
  function Signal(r: Registry, hits: set<Uuid>): Registry {
    r.(channels := map c | c in r.channels ::
      if r.channels[c].receivers != {} && Targets(r, hits, c) then r.channels[c].(value := true) else r.channels[c])
  }

  /** `register_cancel`: the replaced sender is signalled, then dropped. */
  function Register(r: Registry, u: Uuid, receivers: set<TaskId>): Registry {
    var s := Signal(r, {u});
    Registry(s.cancels[u := r.next], s.channels[r.next := Channel(false, receivers)], r.next + 1)
  }

  function Unregister(r: Registry, u: Uuid): Registry {
    r.(cancels := map v | v in r.cancels && v != u :: r.cancels[v])
  }

  function Subscribe(r: Registry, u: Uuid, t: TaskId): Registry {
    if u in r.cancels && r.cancels[u] in r.channels then
      var c := r.cancels[u];
      r.(channels := r.channels[c := r.channels[c].(receivers := r.channels[c].receivers + {t})])
    else r
  }

  /** A task drops every receiver it holds. */
  function Unsubscribe(r: Registry, t: TaskId): Registry {
    r.(channels := map c | c in r.channels :: r.channels[c].(receivers := r.channels[c].receivers - {t}))
  }

  predicate IsCancelled(r: Registry, u: Uuid) {
    u in r.cancels && r.cancels[u] in r.channels && r.channels[r.cancels[u]].value
  }

  predicate HasLiveTask(r: Registry, u: Uuid) {
    u in r.cancels && r.cancels[u] in r.channels && r.channels[r.cancels[u]].receivers != {}
  }

  /** The sender of `c` no longer exists: `changed()` fails and `wait_cancelled` returns. */
  ghost predicate Dropped(r: Registry, c: nat) {
    forall u :: u in r.cancels ==> r.cancels[u] != c
  }

  /** `wait_cancelled` on a receiver of `c` can return. */
  ghost predicate Interrupts(r: Registry, c: nat) {
    c in r.channels && (r.channels[c].value || Dropped(r, c))
  }

  /** A signal that finds no receiver leaves no trace. */
  lemma LostSignal(r: Registry, u: Uuid)
    requires !HasLiveTask(r, u)
    ensures Signal(r, {u}) == r
  {
  }

  lemma SignalKeepsValid(r: Registry, hits: set<Uuid>)
    requires Valid(r)
    ensures Valid(Signal(r, hits))
  {
  }

  /** Signalling one by one is signalling together, in any order. */
  lemma SignalAccumulates(r: Registry, done: set<Uuid>, u: Uuid)
    ensures Signal(Signal(r, done), {u}) == Signal(r, done + {u})
  {
  }

  lemma RegisterKeepsValid(r: Registry, u: Uuid, receivers: set<TaskId>)
    requires Valid(r)
    ensures Valid(Register(r, u, receivers))
  {
  }

  lemma TokensKeepValid(r: Registry, u: Uuid, t: TaskId)
    requires Valid(r)
    ensures Valid(Unregister(r, u)) && Valid(Subscribe(r, u, t)) && Valid(Unsubscribe(r, t))
  {
  }
}
