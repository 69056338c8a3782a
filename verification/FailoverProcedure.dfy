/** The node's own procedure, step by step: a tick or a restore whose saves succeed is a run of the crash-level machine. */
module FailoverProcedure {
  import opened Text
  import opened DnsFailover
  import opened FailoverRuns

  function Run(s: State, steps: seq<Step>): Option<State>
    decreases |steps|
  {
    if steps == [] then Some(s)
    else if Enabled(s, steps[0]) then Run(Apply(s, steps[0]), steps[1..])
    else None
  }

  lemma RunOne(s: State, step: Step, s': State, rest: seq<Step>)
    requires Leads(s, step, s')
    ensures Run(s, [step] + rest) == Run(s', rest)
  {
    assert ([step] + rest)[1..] == rest;
  }

  lemma {:induction false} RunConcat(s: State, a: seq<Step>, mid: State, b: seq<Step>)
    requires Run(s, a) == Some(mid)
    ensures Run(s, a + b) == Run(mid, b)
    decreases |a|
  {
    if a == [] {
      assert a + b == b;
    } else {
      assert (a + b)[0] == a[0] && (a + b)[1..] == a[1..] + b;
      RunConcat(Apply(s, a[0]), a[1..], mid, b);
    }
  }

  /** The procedure knows only updates that take effect and updates that are refused. */
  function Answer(ok: bool): Update {
    if ok then Done else Refused
  }

  // ------------------------------------------------------------------------------------- a tick

  /** Between two names of a tick, with nothing waiting to be saved. */
  ghost predicate BetweenNames(s: State, b: Books, ingress: string) {
    && s.pc.Ticking? && s.pc.ingress == ingress && s.pc.cursor.Between? && s.pc.mem == s.disk
    && JournalOk(s.disk) && b == Books(s.zone, s.disk)
  }

  /** The steps by which one name is served: an entry is recorded and saved only if there is none. */
  function ServeSteps(b: Books, fqdn: string, ingress: string, cp: bool, readable: bool, ok: bool): seq<Step> {
    if !readable || PointsTo(b.zone, fqdn, ingress) then []
    else if Get(b.disk, fqdn).None? then [Look(fqdn)] + ([RecordName(cp)] + ([Save(Written)] + ([Point(Answer(ok))] + [])))
    else [Look(fqdn)] + ([KeepEntry] + ([Point(Answer(ok))] + []))
  }

  lemma {:induction false} RecordIgnoresCase(j: Journal, fqdn: string, original: Option<string>, target: string, cp: bool)
    ensures Record(j, Lower(fqdn), original, target, cp) == Record(j, fqdn, original, target, cp)
  {
    LowerIdempotent(fqdn);
    if j != [] {
      RecordIgnoresCase(j[1..], fqdn, original, target, cp);
    }
  }

  lemma LookLeads(s: State, b: Books, fqdn: string, ingress: string)
    requires BetweenNames(s, b, ingress) && !PointsTo(b.zone, fqdn, ingress)
    ensures Leads(s, Look(fqdn), s.(pc := Ticking(ingress, s.disk, s.pc.changed, Looked(Lower(fqdn), Live(s.zone, fqdn)))))
  {
  }

  lemma NewNameServed(s: State, b: Books, fqdn: string, ingress: string, cp: bool, ok: bool) returns (end: State)
    requires BetweenNames(s, b, ingress) && !PointsTo(b.zone, fqdn, ingress) && Get(b.disk, fqdn).None?
    ensures Run(s, ServeSteps(b, fqdn, ingress, cp, true, ok)) == Some(end)
    ensures BetweenNames(end, Taken(b, fqdn, ingress, cp, ok), ingress)
  {
    var h, live, j := Lower(fqdn), Live(s.zone, fqdn), s.disk;
    LowerIdempotent(fqdn);
    GetIgnoresCase(j, h, fqdn);
    RecordIgnoresCase(j, fqdn, live, ingress, cp);
    TakenMoves(b, fqdn, ingress, cp, ok);
    var s1 := s.(pc := Ticking(ingress, j, s.pc.changed, Looked(h, live)));
    var s2 := s1.(pc := Ticking(ingress, Record(j, h, live, ingress, cp), s.pc.changed, Recorded(h)));
    var s3 := s2.(disk := s2.pc.mem, pc := s2.pc.(cursor := Pointing(h)));
    end := Apply(s3, Point(Answer(ok)));
    LookLeads(s, b, fqdn, ingress);
    RunOne(s, Look(fqdn), s1, [RecordName(cp)] + ([Save(Written)] + ([Point(Answer(ok))] + [])));
    RunOne(s1, RecordName(cp), s2, [Save(Written)] + ([Point(Answer(ok))] + []));
    RunOne(s2, Save(Written), s3, [Point(Answer(ok))] + []);
    RunOne(s3, Point(Answer(ok)), end, []);
  }

  lemma KnownNameServed(s: State, b: Books, fqdn: string, ingress: string, cp: bool, ok: bool) returns (end: State)
    requires BetweenNames(s, b, ingress) && !PointsTo(b.zone, fqdn, ingress) && Get(b.disk, fqdn).Some?
    ensures Run(s, ServeSteps(b, fqdn, ingress, cp, true, ok)) == Some(end)
    ensures BetweenNames(end, Taken(b, fqdn, ingress, cp, ok), ingress)
  {
    var h := Lower(fqdn);
    LowerIdempotent(fqdn);
    GetIgnoresCase(s.disk, h, fqdn);
    var s1 := s.(pc := Ticking(ingress, s.disk, s.pc.changed, Looked(h, Live(s.zone, fqdn))));
    var s2 := s1.(pc := s1.pc.(cursor := Pointing(h)));
    end := Apply(s2, Point(Answer(ok)));
    LookLeads(s, b, fqdn, ingress);
    RunOne(s, Look(fqdn), s1, [KeepEntry] + ([Point(Answer(ok))] + []));
    RunOne(s1, KeepEntry, s2, [Point(Answer(ok))] + []);
    RunOne(s2, Point(Answer(ok)), end, []);
  }

  /** Serving a name, in any spelling, step by step has the effect that the procedure promises. */
  lemma ServeIsARun(s: State, b: Books, fqdn: string, ingress: string, cp: bool, readable: bool, ok: bool) returns (end: State)
    requires BetweenNames(s, b, ingress)
    ensures Run(s, ServeSteps(b, fqdn, ingress, cp, readable, ok)) == Some(end)
    ensures BetweenNames(end, Served(b, fqdn, ingress, cp, readable, ok), ingress)
  {
    if !readable || PointsTo(b.zone, fqdn, ingress) {
      end := s;
    } else if Get(b.disk, fqdn).None? {
      end := NewNameServed(s, b, fqdn, ingress, cp, ok);
    } else {
      end := KnownNameServed(s, b, fqdn, ingress, cp, ok);
    }
  }

  function DomainSteps(b: Books, d: Domain, ingress: string, unreadable: set<string>, refused: set<string>): seq<Step> {
    if DomainWanted(ingress, d) then ServeSteps(b, d.fqdn, ingress, false, d.fqdn !in unreadable, d.fqdn !in refused) else []
  }

  function DomainsSteps(b: Books, domains: seq<Domain>, ingress: string, unreadable: set<string>, refused: set<string>): seq<Step> {
    if domains == [] then []
    else
      var n := |domains| - 1;
      DomainsSteps(b, domains[..n], ingress, unreadable, refused)
      + DomainSteps(DomainsServed(b, domains[..n], ingress, unreadable, refused), domains[n], ingress, unreadable, refused)
  }

  lemma {:induction false} DomainsAreARun(s: State, b: Books, domains: seq<Domain>, ingress: string,
                                          unreadable: set<string>, refused: set<string>)
    returns (end: State)
    requires BetweenNames(s, b, ingress)
    ensures Run(s, DomainsSteps(b, domains, ingress, unreadable, refused)) == Some(end)
    ensures BetweenNames(end, DomainsServed(b, domains, ingress, unreadable, refused), ingress)
    decreases |domains|
  {
    if domains == [] {
      end := s;
    } else {
      var n := |domains| - 1;
      var front, d := domains[..n], domains[n];
      var mid := DomainsAreARun(s, b, front, ingress, unreadable, refused);
      var served := DomainsServed(b, front, ingress, unreadable, refused);
      if DomainWanted(ingress, d) {
        end := ServeIsARun(mid, served, d.fqdn, ingress, false, d.fqdn !in unreadable, d.fqdn !in refused);
      } else {
        end := mid;
      }
      RunConcat(s, DomainsSteps(b, front, ingress, unreadable, refused), mid, DomainSteps(served, d, ingress, unreadable, refused));
    }
  }

  function ControlPlaneSteps(b: Books, node: string, ingress: string, controlPlane: Option<string>, probe: ControlPlaneProbe,
                             unreadable: set<string>, refused: set<string>): seq<Step> {
    if controlPlane.Some? && ControlPlaneShouldPointHere(true, probe, node, ingress)
    then ServeSteps(b, controlPlane.value, ingress, true, controlPlane.value !in unreadable, controlPlane.value !in refused)
    else []
  }

  function TickSteps(b: Books, node: string, ingress: string, controlPlane: Option<string>, probe: ControlPlaneProbe,
                     domains: seq<Domain>, unreadable: set<string>, refused: set<string>): seq<Step> {
    var first := ControlPlaneServed(b, node, ingress, controlPlane, probe, unreadable, refused);
    [TickStart(ingress)] + (ControlPlaneSteps(b, node, ingress, controlPlane, probe, unreadable, refused)
                            + (DomainsSteps(first, domains, ingress, unreadable, refused) + ([TickEnd(Written)] + [])))
  }

  /** A whole tick of the procedure is a run of the machine with the same effect on the zone and the journal. */
  lemma TickIsARun(s: State, node: string, ingress: string, controlPlane: Option<string>, probe: ControlPlaneProbe,
                   domains: seq<Domain>, unreadable: set<string>, refused: set<string>)
    returns (end: State)
    requires s.pc.Idle? && s.acting && !IsBlank(ingress) && JournalOk(s.disk)
    ensures
      var b := Books(s.zone, s.disk);
      var first := ControlPlaneServed(b, node, ingress, controlPlane, probe, unreadable, refused);
      && Run(s, TickSteps(b, node, ingress, controlPlane, probe, domains, unreadable, refused)) == Some(end)
      && end.pc.Idle? && Books(end.zone, end.disk) == DomainsServed(first, domains, ingress, unreadable, refused)
  {
    var b := Books(s.zone, s.disk);
    var first := ControlPlaneServed(b, node, ingress, controlPlane, probe, unreadable, refused);
    var cps := ControlPlaneSteps(b, node, ingress, controlPlane, probe, unreadable, refused);
    var ds := DomainsSteps(first, domains, ingress, unreadable, refused);
    var s0 := Apply(s, TickStart(ingress));
    var s1 := s0;
    if controlPlane.Some? && ControlPlaneShouldPointHere(true, probe, node, ingress) {
      s1 := ServeIsARun(s0, b, controlPlane.value, ingress, true, controlPlane.value !in unreadable, controlPlane.value !in refused);
    }
    var s2 := DomainsAreARun(s1, first, domains, ingress, unreadable, refused);
    end := Apply(s2, TickEnd(Written));
    RunOne(s, TickStart(ingress), s0, cps + (ds + ([TickEnd(Written)] + [])));
    RunConcat(s0, cps, s1, ds + ([TickEnd(Written)] + []));
    RunConcat(s1, ds, s2, [TickEnd(Written)] + []);
    RunOne(s2, TickEnd(Written), end, []);
  }

  // ---------------------------------------------------------------------------------- a restore

  /** The steps of a restore whose updates fail on `fails` and whose file is written. */
  function RestoreSteps(todo: Journal, fails: set<string>): seq<Step> {
    if todo == [] then [RestoreEnd(Written)] + [] else [RestoreNext(Answer(todo[0].fqdn !in fails))] + RestoreSteps(todo[1..], fails)
  }

  lemma {:induction false} RestoredFront(zone: Zone, e: Entry, rest: Journal, fails: set<string>)
    ensures RestoredZone(zone, [e] + rest, fails) ==
            RestoredZone(if Known(e) && e.fqdn !in fails then zone[Lower(e.fqdn) := e.original.value] else zone, rest, fails)
    decreases |rest|
  {
    var all := [e] + rest;
    if rest == [] {
      assert all == [e] && all[..0] == [];
    } else {
      var n := |rest| - 1;
      assert all[..n + 1] == [e] + rest[..n] && all[n + 1] == rest[n];
      RestoredFront(zone, e, rest[..n], fails);
    }
  }

  lemma UnrestoredFront(left: Journal, e: Entry, rest: Journal, fails: set<string>)
    ensures left + Unrestored([e] + rest, fails) ==
            (left + if Known(e) && e.fqdn in fails then [e] else []) + Unrestored(rest, fails)
  {
    assert ([e] + rest)[1..] == rest;
  }

  /** Run step by step, a restore leaves the zone and the journal that the procedure promises. */
  lemma {:induction false} RestoreIsARun(s: State, fails: set<string>) returns (end: State)
    requires s.pc.Restoring?
    ensures Run(s, RestoreSteps(s.pc.todo, fails)) == Some(end) && end.pc.Idle?
    ensures end.zone == RestoredZone(s.zone, s.pc.todo, fails)
    ensures end.disk == s.pc.left + Unrestored(s.pc.todo, fails)
    decreases |s.pc.todo|
  {
    var todo := s.pc.todo;
    if todo == [] {
      end := Apply(s, RestoreEnd(Written));
      RunOne(s, RestoreEnd(Written), end, []);
    } else {
      var e, rest := todo[0], todo[1..];
      var step := RestoreNext(Answer(e.fqdn !in fails));
      var next := Apply(s, step);
      assert todo == [e] + rest;
      end := RestoreIsARun(next, fails);
      RunOne(s, step, next, RestoreSteps(rest, fails));
      RestoredFront(s.zone, e, rest, fails);
      UnrestoredFront(s.pc.left, e, rest, fails);
      assert next.pc.left == s.pc.left + if Known(e) && e.fqdn in fails then [e] else [];
    }
  }
}
