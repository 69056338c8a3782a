/**
 The deploy queue's operations as the server performs them: the table and the token registry are
 changed in place, a signal follows each row that an update reports.
 */
module DeployQueue {
  import opened DeployRows
  import opened CancelRegistry

  class DeployQueue {
    var rows: Rows
    var registry: Registry

    ghost predicate Valid()
      reads this
    {
      CancelRegistry.Valid(registry)
    }

    constructor (rows: Rows)
      ensures Valid() && this.rows == rows && registry == Empty
    {
      this.rows := rows;
      registry := Empty;
    }

    /** A replaced token is signalled before its sender goes, and the new token is not cancelled. */
    method RegisterCancel(uuid: Uuid, receivers: set<TaskId>)
      requires Valid()
      modifies this`registry
      ensures Valid() && registry == Register(old(registry), uuid, receivers)
      ensures !IsCancelled(registry, uuid)
      ensures uuid in old(registry.cancels) && HasLiveTask(old(registry), uuid) ==>
                registry.channels[old(registry.cancels[uuid])].value
    {
      if uuid in registry.cancels {
        assert Targets(registry, {uuid}, registry.cancels[uuid]);
      }
      RegisterKeepsValid(registry, uuid, receivers);
      registry := Register(registry, uuid, receivers);
    }

    method SignalCancel(uuid: Uuid)
      requires Valid()
      modifies this`registry
      ensures Valid() && registry == Signal(old(registry), {uuid})
    {
      SignalKeepsValid(registry, {uuid});
      registry := Signal(registry, {uuid});
    }

    /** Signals a whole set, one token at a time. */
    method SignalEach(uuids: set<Uuid>) returns (order: seq<Uuid>)
      requires Valid()
      modifies this`registry
      ensures Valid() && registry == Signal(old(registry), uuids)
      ensures multiset(order) == multiset(uuids)
    {
      var left := uuids;
      order := [];
      assert Signal(registry, {}) == registry by {
        assert Signal(registry, {}).channels == registry.channels;
      }
      while left != {}
        invariant Valid() && left <= uuids
        invariant registry == Signal(old(registry), uuids - left)
        invariant multiset(order) == multiset(uuids - left)
        decreases |left|
      {
        var u :| u in left;
        SignalAccumulates(old(registry), uuids - left, u);
        assert uuids - (left - {u}) == uuids - left + {u};
        SignalCancel(u);
        order := order + [u];
        left := left - {u};
      }
      assert uuids - left == uuids;
    }

    /**
     Cancels the other active deployments of the same project and environment, and nothing else;
     every one of them that some task listens to has its token raised.
     */
    method SupersedeInProgress(project: int, keep: Uuid) returns (cancelled: seq<Uuid>)
      requires Valid()
      modifies this
      ensures Valid()
      ensures rows == Write(old(rows), SupersedeHits(old(rows), project, keep), Cancelled)
      ensures registry == Signal(old(registry), SupersedeHits(old(rows), project, keep))
      ensures rows.Keys == old(rows).Keys
      ensures forall u :: u in old(rows) ==>
                var environment := if keep in old(rows) then old(rows)[keep].environment else "production";
                var hit := u != keep && old(rows)[u].project == project && old(rows)[u].environment == environment
                           && old(rows)[u].status in {Queued, Running, Building};
                && rows[u] == (if hit then old(rows)[u].(status := Cancelled) else old(rows)[u])
                && (u in cancelled <==> hit)
      ensures multiset(cancelled) == multiset(SupersedeHits(old(rows), project, keep))
      ensures forall u :: u in cancelled && HasLiveTask(old(registry), u) ==> IsCancelled(registry, u)
    {
      var hits := SupersedeHits(rows, project, keep);
      rows := Write(rows, hits, Cancelled);
      cancelled := SignalEach(hits);
      forall u | u in cancelled && HasLiveTask(old(registry), u)
        ensures IsCancelled(registry, u)
      {
        assert u in multiset(cancelled) && u in hits;
        assert Targets(old(registry), hits, old(registry).cancels[u]);
      }
      assert forall u :: u in cancelled <==> u in multiset(cancelled);
    }

    method CancelOneDeployment(uuid: Uuid) returns (done: bool)
      requires Valid()
      modifies this
      ensures Valid()
      ensures done <==> uuid in old(rows) && old(rows)[uuid].status in {Queued, Running, Building, Pending, Deploying}
      ensures done ==> rows == old(rows)[uuid := old(rows)[uuid].(status := Cancelled)]
      ensures done ==> registry == Signal(old(registry), {uuid})
      ensures !done ==> rows == old(rows) && registry == old(registry)
    {
      var hits := CancelHits(rows, uuid);
      done := hits != {};
      if done {
        rows := Write(rows, hits, Cancelled);
        SignalCancel(uuid);
      } else {
        assert uuid in rows && Cancellable(rows[uuid].status) ==> uuid in hits;
      }
    }

    method MarkRunningIfActive(uuid: Uuid) returns (claimed: bool)
      modifies this`rows
      ensures claimed <==> uuid in old(rows) && old(rows)[uuid].status in {Queued, Running, Building}
      ensures claimed ==> rows == old(rows)[uuid := old(rows)[uuid].(status := Running)]
      ensures !claimed ==> rows == old(rows)
    {
      claimed := uuid in rows && Active(rows[uuid].status);
      rows := Write(rows, ActiveHits(rows, uuid), Running);
    }

    method FinalizeIfActive(uuid: Uuid, st: Status) returns (wrote: bool)
      modifies this`rows
      ensures wrote <==> uuid in old(rows) && old(rows)[uuid].status in {Queued, Running, Building}
      ensures wrote ==> rows == old(rows)[uuid := old(rows)[uuid].(status := st)]
      ensures !wrote ==> rows == old(rows)
    {
      wrote := uuid in rows && Active(rows[uuid].status);
      rows := Write(rows, ActiveHits(rows, uuid), st);
    }

    method TryClaimDeployment(uuid: Uuid) returns (claimed: bool)
      modifies this`rows
      ensures claimed <==> uuid in old(rows) && old(rows)[uuid].status == Queued
      ensures claimed ==> rows == old(rows)[uuid := old(rows)[uuid].(status := Running)]
      ensures !claimed ==> rows == old(rows)
    {
      claimed := uuid in rows && rows[uuid].status.Queued?;
      rows := Write(rows, ClaimHits(rows, uuid), Running);
    }

    /** After a restart nothing is running or building any more, and nothing that had ended was reopened. */
    method RequeueInterrupted() returns (count: nat)
      modifies this`rows
      ensures rows.Keys == old(rows).Keys
      ensures forall u :: u in rows ==> rows[u].status !in {Running, Building}
      ensures forall u :: u in rows ==>
                rows[u] == if old(rows)[u].status in {Running, Building} then old(rows)[u].(status := Queued) else old(rows)[u]
      ensures count == |set u | u in old(rows) && old(rows)[u].status in {Running, Building}|
    {
      count := |RequeueHits(rows)|;
      assert RequeueHits(rows) == set u | u in rows && rows[u].status in {Running, Building};
      rows := Write(rows, RequeueHits(rows), Queued);
    }

    /** One row of the reaper's loop: skipped while a live task holds it, else failed if still active. */
    method ReapOne(uuid: Uuid) returns (wrote: bool)
      requires Valid()
      modifies this`rows
      ensures wrote <==> !HasLiveTask(registry, uuid) && uuid in old(rows) && old(rows)[uuid].status in {Queued, Running, Building}
      ensures wrote ==> rows == old(rows)[uuid := old(rows)[uuid].(status := Failed)]
      ensures !wrote ==> rows == old(rows)
    {
      wrote := !HasLiveTask(registry, uuid) && uuid in rows && Active(rows[uuid].status);
      if wrote {
        rows := Write(rows, ActiveHits(rows, uuid), Failed);
      }
    }

    /**
     `stale` lists the rows the query on status and `updated_at` returned. Exactly those that are
     active and that no live task holds are failed.
     */
    method ReapOrphans(stale: seq<Uuid>) returns (reaped: nat)
      requires Valid()
      modifies this`rows
      ensures rows == Write(old(rows), OrphanHits(old(rows), registry, stale), Failed)
      ensures reaped == |OrphanHits(old(rows), registry, stale)|
      ensures rows.Keys == old(rows).Keys
      ensures forall u :: u in old(rows) ==>
                rows[u] == if u in stale && old(rows)[u].status in {Queued, Running, Building} && !HasLiveTask(registry, u)
                           then old(rows)[u].(status := Failed) else old(rows)[u]
    {
      ghost var before := rows;
      var tokens := registry;
      reaped := 0;
      assert Write(rows, {}, Failed) == rows;
      for i := 0 to |stale|
        invariant registry == tokens
        invariant rows == Write(before, OrphanHits(before, tokens, stale[..i]), Failed)
        invariant reaped == |OrphanHits(before, tokens, stale[..i])|
      {
        OrphanNext(before, tokens, stale, i);
        var wrote := ReapOne(stale[i]);
        if wrote {
          reaped := reaped + 1;
        }
      }
      assert stale[..|stale|] == stale;
    }
  }

  /** The active rows of the list that no live task holds. */
  function OrphanHits(rows: Rows, registry: Registry, stale: seq<Uuid>): set<Uuid> {
    set u | u in stale && u in rows && Active(rows[u].status) && !HasLiveTask(registry, u)
  }

  /** The next listed row is failed by the loop exactly when it is an orphan not listed before. */
  lemma OrphanNext(rows: Rows, registry: Registry, stale: seq<Uuid>, i: nat)
    requires i < |stale|
    ensures
      var done, next := OrphanHits(rows, registry, stale[..i]), OrphanHits(rows, registry, stale[..i + 1]);
      var mid, u := Write(rows, done, Failed), stale[i];
      if !HasLiveTask(registry, u) && u in mid && Active(mid[u].status)
      then |next| == |done| + 1 && Write(rows, next, Failed) == mid[u := mid[u].(status := Failed)]
      else next == done
  {
    var done, next := OrphanHits(rows, registry, stale[..i]), OrphanHits(rows, registry, stale[..i + 1]);
    var u := stale[i];
    assert stale[..i + 1] == stale[..i] + [u];
    if u in rows && Active(rows[u].status) && !HasLiveTask(registry, u) {
      assert next == done + {u};
    } else {
      assert next == done;
    }
  }
}
