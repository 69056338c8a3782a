/**
 DNS failover with its journal: an acting leader saves where a hostname pointed before it moves it,
 and a restore replays the journal. Hostnames are compared without case, so the zone is keyed by
 lower-case names.
 */
module DnsFailover {
  import opened Text

  datatype Entry = Entry(fqdn: string, original: Option<string>, target: string, controlPlane: bool)
  type Journal = seq<Entry>
  type Zone = map<string, string>

  /** A file is truncated before it is written, so a write may also leave it empty; its result is ignored. */
  datatype FileWrite = Written | Unwritten | Torn

  // ------------------------------------------------------------------------------- decisions

  datatype ControlPlaneProbe = Healthy(nodeId: Option<string>) | Down
  datatype AppProbe = OriginAlive | TunnelDown

  function Normalized(target: string): string {
    Lower(TrimDots(Trim(target)))
  }

  function TrimDots(s: string): (r: string)
    ensures r <= s
    ensures r != [] ==> r[|r| - 1] != '.'
  {
    if s != [] && s[|s| - 1] == '.' then TrimDots(s[..|s| - 1]) else s
  }

  predicate SameTarget(a: string, b: string) {
    !IsBlank(a) && Normalized(a) == Normalized(b)
  }

  lemma {:induction false} TrimDotsSkips(s: string, dots: string)
    requires (s != [] ==> s[|s| - 1] != '.') && forall i :: 0 <= i < |dots| ==> dots[i] == '.'
    ensures TrimDots(s + dots) == s
  {
    if dots == [] {
      assert s + dots == s;
    } else {
      assert (s + dots)[..|s| + |dots| - 1] == s + dots[..|dots| - 1];
      TrimDotsSkips(s, dots[..|dots| - 1]);
    }
  }

  /** A spelling of `host`: with spaces around it and dots after it. */
  predicate Spells(target: string, left: string, host: string, dots: string, right: string) {
    && target == left + (host + dots) + right && AllSpaces(left) && AllSpaces(right) && Bare(host + dots)
    && (host != [] ==> host[|host| - 1] != '.') && forall i :: 0 <= i < |dots| ==> dots[i] == '.'
  }

  lemma NormalizedIs(target: string, left: string, host: string, dots: string, right: string)
    requires Spells(target, left, host, dots, right)
    ensures Normalized(target) == Lower(host)
    ensures IsBlank(target) <==> host + dots == []
  {
    TrimIs(left, host + dots, right);
    TrimDotsSkips(host, dots);
  }

  /** Two targets are the same exactly when they spell the same host, case aside; a blank one is never. */
  lemma SameTargetIff(a: string, b: string, la: string, ha: string, da: string, ra: string, lb: string, hb: string, db: string, rb: string)
    requires Spells(a, la, ha, da, ra) && Spells(b, lb, hb, db, rb)
    ensures SameTarget(a, b) <==> ha + da != [] && Lower(ha) == Lower(hb)
  {
    NormalizedIs(a, la, ha, da, ra);
    NormalizedIs(b, lb, hb, db, rb);
  }

  predicate ControlPlaneShouldPointHere(acting: bool, probe: ControlPlaneProbe, myNode: string, myIngress: string) {
    && acting && !IsBlank(myIngress)
    && match probe
       case Down => true
       case Healthy(Some(id)) => id == myNode
       case Healthy(None) => false
  }

  /** Two interim leaders that see the same answer both want the control plane only when it is down. */
  lemma HealthyServedByOne(probe: ControlPlaneProbe, a: string, b: string, ingressA: string, ingressB: string)
    requires a != b
    requires ControlPlaneShouldPointHere(true, probe, a, ingressA) && ControlPlaneShouldPointHere(true, probe, b, ingressB)
    ensures probe == Down
  {
  }

  predicate AppShouldPointHere(acting: bool, onOriginalLeader: bool, liveIsMine: bool, probe: AppProbe, myIngress: string) {
    acting && onOriginalLeader && !IsBlank(myIngress) && (liveIsMine || probe.TunnelDown?)
  }

  predicate OnWorker(workers: seq<string>, target: string) {
    exists w :: w in workers && SameTarget(w, target)
  }

  predicate LeaderShouldRestore(healthy: bool, anyInterim: bool, live: Option<string>, workers: seq<string>, saved: Option<string>) {
    && healthy && !anyInterim && live.Some? && saved.Some?
    && !SameTarget(live.value, saved.value)
    && OnWorker(workers, live.value)
  }

  /** A restore needs a healthy leader, no interim, and a name off home on one of the workers' hosts. */
  lemma RestoreNeeds(healthy: bool, anyInterim: bool, live: string, workers: seq<string>, saved: string)
    ensures LeaderShouldRestore(healthy, anyInterim, Some(live), workers, Some(saved)) <==>
              healthy && !anyInterim && !SameTarget(live, saved) && exists i :: 0 <= i < |workers| && SameTarget(workers[i], live)
    ensures !LeaderShouldRestore(healthy, anyInterim, None, workers, Some(saved))
    ensures !LeaderShouldRestore(healthy, anyInterim, Some(live), workers, None)
  {
    if w :| w in workers && SameTarget(w, live) {
      var i :| 0 <= i < |workers| && workers[i] == w;
    }
  }

  // --------------------------------------------------------------------------------- journal

  /** `FailoverState::get`: the first entry of that name, case aside. */
  function Get(j: Journal, fqdn: string): (r: Option<Entry>)
    ensures r.Some? ==> r.value in j && Lower(r.value.fqdn) == Lower(fqdn)
    ensures r.None? ==> forall e :: e in j ==> Lower(e.fqdn) != Lower(fqdn)
  {
    if j == [] then None
    else if Lower(j[0].fqdn) == Lower(fqdn) then Some(j[0])
    else Get(j[1..], fqdn)
  }

  /** `FailoverState::record`: the first original is kept, later calls only change the target. */
  function Record(j: Journal, fqdn: string, original: Option<string>, target: string, cp: bool): Journal {
    if j == [] then [Entry(Lower(fqdn), original, target, cp)]
    else if Lower(j[0].fqdn) == Lower(fqdn) then [j[0].(target := target)] + j[1..]
    else [j[0]] + Record(j[1..], fqdn, original, target, cp)
  }

  /** Journals are built by `Record`: lower-case names, each once. */
  ghost predicate JournalOk(j: Journal) {
    && (forall e :: e in j ==> Lower(e.fqdn) == e.fqdn)
    && (forall a, b :: 0 <= a < b < |j| ==> j[a].fqdn != j[b].fqdn)
  }

  /** Recording a name remembers the first original for ever and disturbs no other name. */
  lemma {:induction false} RecordRemembersFirst(j: Journal, fqdn: string, original: Option<string>, target: string, cp: bool, h: string)
    ensures Get(Record(j, fqdn, original, target, cp), h) ==
            if Lower(h) != Lower(fqdn) then Get(j, h)
            else if Get(j, fqdn).Some? then Some(Get(j, fqdn).value.(target := target))
            else Some(Entry(Lower(fqdn), original, target, cp))
  {
    LowerIdempotent(fqdn);
    if j != [] {
      var r := Record(j, fqdn, original, target, cp);
      if Lower(j[0].fqdn) != Lower(fqdn) {
        assert r[1..] == Record(j[1..], fqdn, original, target, cp);
        RecordRemembersFirst(j[1..], fqdn, original, target, cp, h);
      } else {
        assert r[1..] == j[1..];
      }
    }
  }

  lemma {:induction false} RecordAppends(j: Journal, fqdn: string, original: Option<string>, target: string, cp: bool)
    requires Get(j, fqdn).None?
    ensures Record(j, fqdn, original, target, cp) == j + [Entry(Lower(fqdn), original, target, cp)]
  {
    if j != [] {
      RecordAppends(j[1..], fqdn, original, target, cp);
    }
  }

  /** A new name goes to the end, so the journal stays lower-case and free of repeats. */
  lemma RecordKeepsJournal(j: Journal, fqdn: string, original: Option<string>, target: string, cp: bool)
    requires JournalOk(j) && Get(j, fqdn).None?
    ensures JournalOk(Record(j, fqdn, original, target, cp))
  {
    RecordAppends(j, fqdn, original, target, cp);
    LowerIdempotent(fqdn);
  }

  lemma {:induction false} GetUnique(j: Journal, i: nat)
    requires JournalOk(j) && i < |j|
    ensures Get(j, j[i].fqdn) == Some(j[i])
  {
  }

  function Live(zone: Zone, fqdn: string): Option<string> {
    if Lower(fqdn) in zone then Some(zone[Lower(fqdn)]) else None
  }

  /** The original a restore can put back: known and not blank. */
  predicate Known(e: Entry) {
    e.original.Some? && !IsBlank(e.original.value)
  }

  // --------------------------------------------------------------------------------- restore

  /** The entries a restore keeps for the next try: those it could not point back. */
  function Unrestored(j: Journal, fails: set<string>): Journal {
    if j == [] then []
    else (if Known(j[0]) && j[0].fqdn in fails then [j[0]] else []) + Unrestored(j[1..], fails)
  }

  /** The zone after pointing back every known entry that does not fail. */
  function RestoredZone(zone: Zone, j: Journal, fails: set<string>): Zone {
    if j == [] then zone
    else
      var rest := RestoredZone(zone, j[..|j| - 1], fails);
      var e := j[|j| - 1];
      if Known(e) && e.fqdn !in fails then rest[Lower(e.fqdn) := e.original.value] else rest
  }

  lemma {:induction false} UnrestoredAppend(j: Journal, e: Entry, fails: set<string>)
    ensures Unrestored(j + [e], fails) == Unrestored(j, fails) + if Known(e) && e.fqdn in fails then [e] else []
  {
    if j == [] {
      assert j + [e] == [e];
    } else {
      assert (j + [e])[1..] == j[1..] + [e];
      UnrestoredAppend(j[1..], e, fails);
    }
  }

  lemma {:induction false} RestoreFollowsEntries(zone: Zone, j: Journal, fails: set<string>, h: string)
    requires JournalOk(j)
    ensures Live(RestoredZone(zone, j, fails), h) == AfterRestore(zone, Get(j, h), fails, h)
  {
    if j != [] {
      var front, e := j[..|j| - 1], j[|j| - 1];
      assert j == front + [e];
      FrontOk(front, e);
      RestoreFollowsEntries(zone, front, fails, h);
      GetAppend(front, e, h);
      if Lower(e.fqdn) == Lower(h) {
        NotBefore(front, e, h);
      }
    }
  }

  /** Every journalled name with a known original gets it back unless its update fails; no other name moves. */
  lemma RestoreReturnsNames(zone: Zone, j: Journal, fails: set<string>, h: string)
    requires JournalOk(j)
    ensures Live(RestoredZone(zone, j, fails), h) ==
            match Get(j, h)
            case Some(Entry(name, Some(original), _, _)) => if !IsBlank(original) && name !in fails then Some(original) else Live(zone, h)
            case _ => Live(zone, h)
  {
    RestoreFollowsEntries(zone, j, fails, h);
  }

  lemma FrontOk(front: Journal, e: Entry)
    requires JournalOk(front + [e])
    ensures JournalOk(front)
  {
    assert forall a :: 0 <= a < |front| ==> (front + [e])[a] == front[a];
    assert forall x :: x in front ==> x in front + [e];
  }

  lemma RestoreReturnsAll(zone: Zone, j: Journal, fails: set<string>)
    requires JournalOk(j)
    ensures forall h {:trigger Live(RestoredZone(zone, j, fails), h)} ::
              Live(RestoredZone(zone, j, fails), h) == AfterRestore(zone, Get(j, h), fails, h)
    ensures fails == {} ==> Unrestored(j, fails) == []
  {
    forall h
      ensures Live(RestoredZone(zone, j, fails), h) == AfterRestore(zone, Get(j, h), fails, h)
    {
      RestoreFollowsEntries(zone, j, fails, h);
    }
    if fails == {} && Unrestored(j, fails) != [] {
      UnrestoredMembers(j, fails, Unrestored(j, fails)[0]);
    }
  }

  function AfterRestore(zone: Zone, entry: Option<Entry>, fails: set<string>, h: string): Option<string> {
    if entry.Some? && Known(entry.value) && entry.value.fqdn !in fails then entry.value.original else Live(zone, h)
  }

  lemma NotBefore(front: Journal, e: Entry, h: string)
    requires JournalOk(front + [e]) && Lower(e.fqdn) == Lower(h)
    ensures Get(front, h).None?
  {
    var all := front + [e];
    assert all[|front|] == e && e in all;
    assert forall k :: 0 <= k < |front| ==> all[k] == front[k] && front[k] in all && front[k].fqdn != e.fqdn;
  }

  lemma {:induction false} GetAppend(j: Journal, e: Entry, h: string)
    ensures Get(j + [e], h) == if Get(j, h).Some? then Get(j, h) else if Lower(e.fqdn) == Lower(h) then Some(e) else None
  {
    if j == [] {
      assert j + [e] == [e];
    } else {
      assert (j + [e])[1..] == j[1..] + [e];
      GetAppend(j[1..], e, h);
    }
  }

  lemma {:induction false} UnrestoredMembers(j: Journal, fails: set<string>, e: Entry)
    ensures e in Unrestored(j, fails) <==> e in j && Known(e) && e.fqdn in fails
  {
    if j != [] {
      UnrestoredMembers(j[1..], fails, e);
    }
  }

  lemma KeptForNextTry(j: Journal, fails: set<string>)
    ensures forall e :: e in Unrestored(j, fails) <==> e in j && e.original.Some? && !IsBlank(e.original.value) && e.fqdn in fails
  {
    forall e
      ensures e in Unrestored(j, fails) <==> e in j && e.original.Some? && !IsBlank(e.original.value) && e.fqdn in fails
    {
      UnrestoredMembers(j, fails, e);
    }
  }

  // ------------------------------------------------------------------- the node's own procedure

  predicate PointsTo(zone: Zone, fqdn: string, ingress: string) {
    Live(zone, fqdn).Some? && SameTarget(Live(zone, fqdn).value, ingress)
  }

  /**
   Only names of `wanted` were touched. Every name that moved points here and has an entry; old entries
   stay, a new one holds what the name pointed at before.
   */
  ghost predicate MovesJournalled(zone: Zone, disk: Journal, zone': Zone, disk': Journal, ingress: string, wanted: set<string>) {
    forall h {:trigger Live(zone', h)} {:trigger Get(disk', h)} ::
      && (Live(zone', h) != Live(zone, h) ==> Live(zone', h) == Some(ingress) && Get(disk', h).Some? && Lower(h) in wanted)
      && (Get(disk, h).Some? ==> Get(disk', h) == Get(disk, h))
      && (Get(disk, h).None? && Get(disk', h).Some? ==> Get(disk', h).value.original == Live(zone, h) && Lower(h) in wanted)
  }

  /** A node's zone and journal together. */
  datatype Books = Books(zone: Zone, disk: Journal)

  /** What taking a name leaves: a new entry only if there was none, and the name moved if the update went through. */
  function Taken(b: Books, fqdn: string, ingress: string, cp: bool, ok: bool): Books {
    Books(if ok then b.zone[Lower(fqdn) := ingress] else b.zone,
          if Get(b.disk, fqdn).None? then Record(b.disk, fqdn, Live(b.zone, fqdn), ingress, cp) else b.disk)
  }

  lemma TakenMoves(b: Books, fqdn: string, ingress: string, cp: bool, ok: bool)
    requires JournalOk(b.disk)
    ensures
      var t := Taken(b, fqdn, ingress, cp, ok);
      && JournalOk(t.disk)
      && MovesJournalled(b.zone, b.disk, t.zone, t.disk, ingress, {Lower(fqdn)})
      && (ok && !IsBlank(ingress) ==> PointsTo(t.zone, fqdn, ingress))
  {
    forall h | Lower(h) == Lower(fqdn)
      ensures Get(b.disk, h) == Get(b.disk, fqdn)
    {
      GetIgnoresCase(b.disk, fqdn, h);
    }
    if Get(b.disk, fqdn).None? {
      JournalNewName(b.disk, fqdn, Live(b.zone, fqdn), ingress, cp);
    }
  }

  /** A name this node should serve: looked up, left alone if it is ours already, else taken. */
  function Served(b: Books, fqdn: string, ingress: string, cp: bool, readable: bool, ok: bool): Books {
    if readable && !PointsTo(b.zone, fqdn, ingress) then Taken(b, fqdn, ingress, cp, ok) else b
  }

  /** Journalled moves compose: a name's entry is from before the first of them. And what points here keeps doing so. */
  lemma MovesCompose(z0: Zone, d0: Journal, z1: Zone, d1: Journal, z2: Zone, d2: Journal, ingress: string, a: set<string>, b: set<string>)
    requires MovesJournalled(z0, d0, z1, d1, ingress, a) && MovesJournalled(z1, d1, z2, d2, ingress, b)
    ensures MovesJournalled(z0, d0, z2, d2, ingress, a + b)
    ensures forall f :: PointsTo(z1, f, ingress) && !IsBlank(ingress) ==> PointsTo(z2, f, ingress)
  {
  }

  lemma {:induction false} GetIgnoresCase(j: Journal, a: string, b: string)
    requires Lower(a) == Lower(b)
    ensures Get(j, a) == Get(j, b)
  {
    if j != [] {
      GetIgnoresCase(j[1..], a, b);
    }
  }

  lemma JournalNewName(j: Journal, fqdn: string, original: Option<string>, target: string, cp: bool)
    requires JournalOk(j) && Get(j, fqdn).None?
    ensures JournalOk(Record(j, fqdn, original, target, cp))
    ensures forall h {:trigger Get(j, h)} {:trigger Get(Record(j, fqdn, original, target, cp), h)} ::
              Get(Record(j, fqdn, original, target, cp), h) ==
              if Lower(h) == Lower(fqdn) then Some(Entry(Lower(fqdn), original, target, cp)) else Get(j, h)
  {
    RecordKeepsJournal(j, fqdn, original, target, cp);
    forall h
      ensures Get(Record(j, fqdn, original, target, cp), h) ==
              if Lower(h) == Lower(fqdn) then Some(Entry(Lower(fqdn), original, target, cp)) else Get(j, h)
    {
      RecordRemembersFirst(j, fqdn, original, target, cp, h);
    }
  }

  /** A managed domain: whether the original leader serves it, and what its probe says. */
  datatype Domain = Domain(fqdn: string, onLeader: bool, probe: AppProbe)

  predicate DomainWanted(ingress: string, d: Domain) {
    d.fqdn != [] && AppShouldPointHere(true, d.onLeader, false, d.probe, ingress)
  }

  function DomainsWanted(ingress: string, domains: seq<Domain>): set<string> {
    set d | d in domains && DomainWanted(ingress, d) :: Lower(d.fqdn)
  }

  function ControlPlaneWanted(node: string, ingress: string, controlPlane: Option<string>, probe: ControlPlaneProbe): set<string> {
    if controlPlane.Some? && ControlPlaneShouldPointHere(true, probe, node, ingress) then {Lower(controlPlane.value)} else {}
  }

  lemma DomainsWantedNext(ingress: string, domains: seq<Domain>, i: nat)
    requires i < |domains|
    ensures DomainsWanted(ingress, domains[..i + 1]) ==
            DomainsWanted(ingress, domains[..i]) + DomainsWanted(ingress, [domains[i]])
  {
    assert domains[..i + 1] == domains[..i] + [domains[i]];
  }

  /** The control plane's turn in a tick. */
  function ControlPlaneServed(b: Books, node: string, ingress: string, controlPlane: Option<string>, probe: ControlPlaneProbe,
                              unreadable: set<string>, refused: set<string>): Books {
    if controlPlane.Some? && ControlPlaneShouldPointHere(true, probe, node, ingress)
    then Served(b, controlPlane.value, ingress, true, controlPlane.value !in unreadable, controlPlane.value !in refused)
    else b
  }

  /** One domain's turn. */
  function DomainServed(b: Books, d: Domain, ingress: string, unreadable: set<string>, refused: set<string>): Books {
    if DomainWanted(ingress, d) then Served(b, d.fqdn, ingress, false, d.fqdn !in unreadable, d.fqdn !in refused) else b
  }

  function DomainsServed(b: Books, domains: seq<Domain>, ingress: string, unreadable: set<string>, refused: set<string>): Books {
    if domains == [] then b
    else
      var n := |domains| - 1;
      DomainServed(DomainsServed(b, domains[..n], ingress, unreadable, refused), domains[n], ingress, unreadable, refused)
  }

  lemma {:induction false} NothingServed(b: Books, domains: seq<Domain>, ingress: string, unreadable: set<string>, refused: set<string>)
    requires IsBlank(ingress)
    ensures DomainsServed(b, domains, ingress, unreadable, refused) == b
  {
    if domains != [] {
      NothingServed(b, domains[..|domains| - 1], ingress, unreadable, refused);
    }
  }

  /** The name stays, and so does what the journal says of it. */
  ghost predicate Left(b: Books, b': Books, h: string) {
    Live(b'.zone, h) == Live(b.zone, h) && Get(b'.disk, h) == Get(b.disk, h)
  }

  /** A name that points here already, in whatever spelling, is left alone. */
  lemma ServedLeavesMine(b: Books, fqdn: string, ingress: string, cp: bool, readable: bool, ok: bool, h: string)
    requires Live(b.zone, h).Some? && SameTarget(Live(b.zone, h).value, ingress)
    ensures Left(b, Served(b, fqdn, ingress, cp, readable, ok), h)
  {
    RecordRemembersFirst(b.disk, fqdn, Live(b.zone, fqdn), ingress, cp, h);
  }

  lemma {:induction false} DomainsLeaveMine(b: Books, domains: seq<Domain>, ingress: string, unreadable: set<string>, refused: set<string>, h: string)
    requires Live(b.zone, h).Some? && SameTarget(Live(b.zone, h).value, ingress)
    ensures Left(b, DomainsServed(b, domains, ingress, unreadable, refused), h)
  {
    if domains != [] {
      var n := |domains| - 1;
      var d := domains[n];
      DomainsLeaveMine(b, domains[..n], ingress, unreadable, refused, h);
      ServedLeavesMine(DomainsServed(b, domains[..n], ingress, unreadable, refused), d.fqdn, ingress, false,
                       d.fqdn !in unreadable, d.fqdn !in refused, h);
    }
  }

  /** Nobody wants the name here: no domain of that name is on the leader with its tunnel down, and the control plane is served elsewhere. */
  ghost predicate Unwanted(node: string, controlPlane: Option<string>, probe: ControlPlaneProbe, domains: seq<Domain>, h: string) {
    && (forall d :: d in domains && Lower(d.fqdn) == Lower(h) ==> !d.onLeader || d.probe == OriginAlive)
    && (controlPlane.Some? && Lower(controlPlane.value) == Lower(h) ==>
          probe.Healthy? && probe.nodeId != Some(node))
  }

  /** A name that nobody wants here, or that points here already, is left alone by a tick. */
  lemma TickLeaves(b: Books, b': Books, node: string, ingress: string, controlPlane: Option<string>, probe: ControlPlaneProbe,
                   domains: seq<Domain>, unreadable: set<string>, refused: set<string>, h: string)
    requires b' == DomainsServed(ControlPlaneServed(b, node, ingress, controlPlane, probe, unreadable, refused), domains, ingress, unreadable, refused)
    requires MovesJournalled(b.zone, b.disk, b'.zone, b'.disk, ingress,
                             ControlPlaneWanted(node, ingress, controlPlane, probe) + DomainsWanted(ingress, domains))
    ensures Unwanted(node, controlPlane, probe, domains, h) ==> Left(b, b', h)
    ensures Live(b.zone, h).Some? && SameTarget(Live(b.zone, h).value, ingress) ==> Left(b, b', h)
  {
    if Live(b.zone, h).Some? && SameTarget(Live(b.zone, h).value, ingress) {
      var first := ControlPlaneServed(b, node, ingress, controlPlane, probe, unreadable, refused);
      if controlPlane.Some? {
        ServedLeavesMine(b, controlPlane.value, ingress, true, controlPlane.value !in unreadable, controlPlane.value !in refused, h);
      }
      assert Left(b, first, h);
      DomainsLeaveMine(first, domains, ingress, unreadable, refused, h);
    }
    if Unwanted(node, controlPlane, probe, domains, h) {
      assert Lower(h) !in ControlPlaneWanted(node, ingress, controlPlane, probe);
      assert Lower(h) !in DomainsWanted(ingress, domains);
      assert Live(b'.zone, h) == Live(b.zone, h);
      assert Get(b.disk, h).Some? ==> Get(b'.disk, h) == Get(b.disk, h);
    }
  }

  /** What the next entry of a restore adds: its name pointed back, or the entry kept. */
  lemma RestoreNextEntry(zone: Zone, entries: Journal, i: nat, fails: set<string>)
    requires i < |entries|
    ensures
      var e, z := entries[i], RestoredZone(zone, entries[..i], fails);
      && RestoredZone(zone, entries[..i + 1], fails) == (if Known(e) && e.fqdn !in fails then z[Lower(e.fqdn) := e.original.value] else z)
      && Unrestored(entries[..i + 1], fails) == Unrestored(entries[..i], fails) + if Known(e) && e.fqdn in fails then [e] else []
  {
    assert entries[..i + 1][..i] == entries[..i] && entries[..i + 1] == entries[..i] + [entries[i]];
    UnrestoredAppend(entries[..i], entries[i], fails);
  }

  /** A node's zone and its journal file, changed step by step. */
  class FailoverNode {
    var zone: Zone
    var disk: Journal

    /** Takes over one name that is not ours yet: recorded and saved, once, before it is moved. */
    method TakeName(fqdn: string, ingress: string, cp: bool, ok: bool)
      requires JournalOk(disk) && !IsBlank(ingress)
      modifies this
      ensures Books(zone, disk) == Taken(Books(old(zone), old(disk)), fqdn, ingress, cp, ok)
      ensures JournalOk(disk)
      ensures MovesJournalled(old(zone), old(disk), zone, disk, ingress, {Lower(fqdn)})
      ensures ok ==> PointsTo(zone, fqdn, ingress)
    {
      TakenMoves(Books(zone, disk), fqdn, ingress, cp, ok);
      if Get(disk, fqdn).None? {
        disk := Record(disk, fqdn, Live(zone, fqdn), ingress, cp);
      }
      if ok {
        zone := zone[Lower(fqdn) := ingress];
      }
    }

    /** A name this node should serve: looked up, left alone if it is ours already, else taken. */
    method MoveHere(fqdn: string, ingress: string, cp: bool, readable: bool, ok: bool)
      requires JournalOk(disk) && !IsBlank(ingress)
      modifies this
      ensures Books(zone, disk) == Served(Books(old(zone), old(disk)), fqdn, ingress, cp, readable, ok)
      ensures JournalOk(disk)
      ensures MovesJournalled(old(zone), old(disk), zone, disk, ingress, {Lower(fqdn)})
      ensures readable && ok ==> PointsTo(zone, fqdn, ingress)
    {
      if readable && !PointsTo(zone, fqdn, ingress) {
        TakeName(fqdn, ingress, cp, ok);
      }
    }

    method VisitControlPlane(node: string, ingress: string, controlPlane: Option<string>, probe: ControlPlaneProbe,
                             unreadable: set<string>, refused: set<string>)
      requires JournalOk(disk)
      modifies this
      ensures Books(zone, disk) ==
              ControlPlaneServed(Books(old(zone), old(disk)), node, ingress, controlPlane, probe, unreadable, refused)
      ensures JournalOk(disk)
      ensures MovesJournalled(old(zone), old(disk), zone, disk, ingress, ControlPlaneWanted(node, ingress, controlPlane, probe))
      ensures controlPlane.Some? && ControlPlaneShouldPointHere(true, probe, node, ingress) ==>
                controlPlane.value in unreadable + refused || PointsTo(zone, controlPlane.value, ingress)
      ensures controlPlane.Some? && !IsBlank(ingress) && (probe == Down || probe == Healthy(Some(node)))
              && controlPlane.value !in unreadable && controlPlane.value !in refused ==>
                Live(zone, controlPlane.value).Some? && SameTarget(Live(zone, controlPlane.value).value, ingress)
      ensures controlPlane.None? || IsBlank(ingress) ==> zone == old(zone) && disk == old(disk)
      ensures probe.Healthy? && probe.nodeId != Some(node) ==> zone == old(zone) && disk == old(disk)
    {
      if controlPlane.Some? && ControlPlaneShouldPointHere(true, probe, node, ingress) {
        MoveHere(controlPlane.value, ingress, true, controlPlane.value !in unreadable, controlPlane.value !in refused);
      }
    }

    method VisitDomain(d: Domain, ingress: string, unreadable: set<string>, refused: set<string>)
      requires JournalOk(disk)
      modifies this
      ensures Books(zone, disk) == DomainServed(Books(old(zone), old(disk)), d, ingress, unreadable, refused)
      ensures JournalOk(disk)
      ensures MovesJournalled(old(zone), old(disk), zone, disk, ingress, DomainsWanted(ingress, [d]))
      ensures DomainWanted(ingress, d) ==> d.fqdn in unreadable + refused || PointsTo(zone, d.fqdn, ingress)
      ensures d.onLeader && d.probe == TunnelDown && d.fqdn != [] && !IsBlank(ingress) && d.fqdn !in unreadable && d.fqdn !in refused ==>
                Live(zone, d.fqdn).Some? && SameTarget(Live(zone, d.fqdn).value, ingress)
      ensures !d.onLeader || d.probe == OriginAlive || d.fqdn == [] || IsBlank(ingress) ==> zone == old(zone) && disk == old(disk)
    {
      if d.fqdn == [] || !d.onLeader || d.fqdn in unreadable {
        return;
      }
      var mine := PointsTo(zone, d.fqdn, ingress);
      var seen := if mine then OriginAlive else d.probe;
      if !AppShouldPointHere(true, true, mine, seen, ingress) || mine {
        return;
      }
      MoveHere(d.fqdn, ingress, false, true, d.fqdn !in refused);
      assert d in [d];
    }

    /**
     One pass: the control plane's name, then the managed domains in turn. `unreadable` are the names
     whose lookup fails, `refused` those whose update fails. A domain on the original leader whose tunnel
     is down points here afterwards, and so does the control plane's name if it is down or this node
     serves it, unless a lookup or update failed. Every other name is left alone, in zone and journal, and
     so is one that points here already.
     */
    method InterimTick(node: string, ingress: string, controlPlane: Option<string>, probe: ControlPlaneProbe,
                       domains: seq<Domain>, unreadable: set<string>, refused: set<string>)
      requires JournalOk(disk)
      modifies this
      ensures
        var first := ControlPlaneServed(Books(old(zone), old(disk)), node, ingress, controlPlane, probe, unreadable, refused);
        Books(zone, disk) == DomainsServed(first, domains, ingress, unreadable, refused)
      ensures JournalOk(disk)
      ensures MovesJournalled(old(zone), old(disk), zone, disk, ingress,
                              ControlPlaneWanted(node, ingress, controlPlane, probe) + DomainsWanted(ingress, domains))
      ensures controlPlane.Some? && ControlPlaneShouldPointHere(true, probe, node, ingress) ==>
                controlPlane.value in unreadable + refused || PointsTo(zone, controlPlane.value, ingress)
      ensures forall d :: d in domains && DomainWanted(ingress, d) ==>
                d.fqdn in unreadable + refused || PointsTo(zone, d.fqdn, ingress)
      ensures controlPlane.Some? && !IsBlank(ingress) && (probe == Down || probe == Healthy(Some(node)))
              && controlPlane.value !in unreadable && controlPlane.value !in refused ==>
                Live(zone, controlPlane.value).Some? && SameTarget(Live(zone, controlPlane.value).value, ingress)
      ensures !IsBlank(ingress) ==>
                forall d :: d in domains && d.onLeader && d.probe == TunnelDown && d.fqdn != []
                            && d.fqdn !in unreadable && d.fqdn !in refused ==>
                  Live(zone, d.fqdn).Some? && SameTarget(Live(zone, d.fqdn).value, ingress)
      ensures IsBlank(ingress) ==> zone == old(zone) && disk == old(disk)
      ensures forall h {:trigger Live(zone, h)} {:trigger Get(disk, h)} ::
                Unwanted(node, controlPlane, probe, domains, h)
                || (Live(old(zone), h).Some? && SameTarget(Live(old(zone), h).value, ingress)) ==>
                  Live(zone, h) == Live(old(zone), h) && Get(disk, h) == Get(old(disk), h)
    {
      if IsBlank(ingress) {
        NothingServed(Books(zone, disk), domains, ingress, unreadable, refused);
      }
      if ingress == [] {
        return;
      }
      ghost var wanted := ControlPlaneWanted(node, ingress, controlPlane, probe);
      VisitControlPlane(node, ingress, controlPlane, probe, unreadable, refused);
      ghost var z, j := zone, disk;
      VisitDomains(domains, ingress, unreadable, refused);
      MovesCompose(old(zone), old(disk), z, j, zone, disk, ingress, wanted, DomainsWanted(ingress, domains));
      ghost var before, after := Books(old(zone), old(disk)), Books(zone, disk);
      forall h
        ensures Unwanted(node, controlPlane, probe, domains, h) ==> Left(before, after, h)
        ensures Live(before.zone, h).Some? && SameTarget(Live(before.zone, h).value, ingress) ==> Left(before, after, h)
      {
        TickLeaves(before, after, node, ingress, controlPlane, probe, domains, unreadable, refused, h);
      }
    }

    method VisitDomains(domains: seq<Domain>, ingress: string, unreadable: set<string>, refused: set<string>)
      requires JournalOk(disk)
      modifies this
      ensures Books(zone, disk) == DomainsServed(Books(old(zone), old(disk)), domains, ingress, unreadable, refused)
      ensures JournalOk(disk)
      ensures MovesJournalled(old(zone), old(disk), zone, disk, ingress, DomainsWanted(ingress, domains))
      ensures forall d :: d in domains && DomainWanted(ingress, d) ==>
                d.fqdn in unreadable + refused || PointsTo(zone, d.fqdn, ingress)
    {
      assert domains[..0] == [];
      for i := 0 to |domains|
        invariant JournalOk(disk)
        invariant Books(zone, disk) == DomainsServed(Books(old(zone), old(disk)), domains[..i], ingress, unreadable, refused)
        invariant MovesJournalled(old(zone), old(disk), zone, disk, ingress, DomainsWanted(ingress, domains[..i]))
        invariant forall k :: 0 <= k < i && DomainWanted(ingress, domains[k]) ==>
                    domains[k].fqdn in unreadable + refused || PointsTo(zone, domains[k].fqdn, ingress)
      {
        ghost var z, j := zone, disk;
        VisitDomain(domains[i], ingress, unreadable, refused);
        assert domains[..i + 1][..i] == domains[..i];
        DomainsWantedNext(ingress, domains, i);
        MovesCompose(old(zone), old(disk), z, j, zone, disk, ingress,
                     DomainsWanted(ingress, domains[..i]), DomainsWanted(ingress, [domains[i]]));
      }
      assert domains[..|domains|] == domains;
    }

    /** `fails` are the names whose update the DNS provider refuses; the file is written at the end. */
    method Restore(fails: set<string>)
      requires JournalOk(disk)
      modifies this
      ensures zone == RestoredZone(old(zone), old(disk), fails)
      ensures disk == Unrestored(old(disk), fails)
      ensures fails == {} ==> disk == []
      ensures forall e :: e in disk <==> e in old(disk) && e.original.Some? && !IsBlank(e.original.value) && e.fqdn in fails
      ensures forall h {:trigger Live(zone, h)} :: Live(zone, h) == AfterRestore(old(zone), Get(old(disk), h), fails, h)
    {
      KeptForNextTry(disk, fails);
      var entries := disk;
      RestoreReturnsAll(zone, entries, fails);
      if entries == [] {
        return;
      }
      var left: Journal := [];
      for i := 0 to |entries|
        invariant disk == entries
        invariant zone == RestoredZone(old(zone), entries[..i], fails)
        invariant left == Unrestored(entries[..i], fails)
      {
        var e := entries[i];
        RestoreNextEntry(old(zone), entries, i, fails);
        if Known(e) {
          if e.fqdn !in fails {
            zone := zone[Lower(e.fqdn) := e.original.value];
          } else {
            left := left + [e];
          }
        }
      }
      assert entries[..|entries|] == entries;
      disk := left;
    }
  }
}
