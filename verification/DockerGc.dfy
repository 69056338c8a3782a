/**
 The image garbage collector: which images of a node may be removed. Images are grouped by project,
 the newest of each project are kept for rollback, and anything a container uses is never touched.
 */
module DockerGc {
  import opened Text
  import opened ImageNames

  datatype Image = Image(id: string, created: real, size: nat, tags: seq<string>)
  datatype Container = Container(imageId: string, state: string)

  datatype Settings = Settings(now: real, retentionHours: nat, keepPerProject: nat)

  datatype Reason = RunningContainer | StoppedContainer | CurrentDeploy | Rollback | Recent | UnsafeRef
                  | OldDeploy | Orphan | Unused

  datatype Verdict = Keep(reason: Reason) | Remove(reason: Reason)

  datatype Candidate = Candidate(id: string, refs: seq<string>, size: nat, created: real, project: Option<string>, reason: Reason)
  datatype Kept = Kept(id: string, tags: seq<string>, reason: Reason)
  datatype Plan = Plan(remove: seq<Candidate>, kept: seq<Kept>)

  predicate IsRunning(state: string) {
    state == "running" || state == "restarting" || state == "paused"
  }

  function Used(containers: seq<Container>): set<string> {
    set c | c in containers :: c.imageId
  }

  function RunningIds(containers: seq<Container>): set<string> {
    set c | c in containers && IsRunning(c.state) :: c.imageId
  }

  function Cutoff(s: Settings): real {
    s.now - s.retentionHours as real * 3600.0
  }

  function KeepN(s: Settings): nat {
    if s.keepPerProject < 1 then 1 else s.keepPerProject
  }

  function Refs(img: Image): seq<string> {
    if img.tags == [] then [img.id] else img.tags
  }

  predicate SafeRefs(img: Image) {
    forall r :: r in Refs(img) ==> IsSafeRef(r)
  }

  // ---------------------------------------------------------------------- rollback protection

  /** Image `i` is ranked ahead of `j`: more recent, or as recent and listed before (the sort is stable). */
  predicate Ahead(images: seq<Image>, i: nat, j: nat)
    requires i < |images| && j < |images|
  {
    images[i].created > images[j].created || (images[i].created == images[j].created && i < j)
  }

  function Members(images: seq<Image>, project: string): set<nat> {
    set i: nat | i < |images| && ProjectOf(images[i].tags) == Some(project)
  }

  /** How many images of the same project are ranked ahead of `i`. */
  function Rank(images: seq<Image>, i: nat): nat
    requires i < |images|
  {
    |AheadOf(images, i)|
  }

  function AheadOf(images: seq<Image>, i: nat): set<nat>
    requires i < |images|
  {
    set j: nat | j < |images| && ProjectOf(images[j].tags) == ProjectOf(images[i].tags) && Ahead(images, j, i)
  }

  predicate RollbackIndex(images: seq<Image>, keepN: nat, i: nat) {
    i < |images| && ProjectOf(images[i].tags).Some? && Rank(images, i) < keepN
  }

  /** The ids of the `keepN` most recent images of every project. */
  function RollbackIds(images: seq<Image>, keepN: nat): set<string> {
    IdsOf(images, set i: nat | i < |images| && RollbackIndex(images, keepN, i))
  }

  function IdsOf(images: seq<Image>, indices: set<nat>): set<string> {
    set i | i in indices && i < |images| :: images[i].id
  }

  // ----------------------------------------------------------------------------------- verdict

  /** What the scan decides for one image, given the ids protected for rollback. */
  function Judge(img: Image, containers: seq<Container>, s: Settings, rollback: set<string>): Verdict {
    if img.id in RunningIds(containers) then Keep(RunningContainer)
    else if img.id in Used(containers) then Keep(StoppedContainer)
    else if IsCurrentDeploy(img.tags) then Keep(CurrentDeploy)
    else if ProjectOf(img.tags).Some? then
      if img.id in rollback then Keep(Rollback)
      else if !SafeRefs(img) then Keep(UnsafeRef)
      else Remove(OldDeploy)
    else if img.created <= Cutoff(s) then
      if !SafeRefs(img) then Keep(UnsafeRef)
      else if img.tags == [] then Remove(Orphan)
      else Remove(Unused)
    else Keep(Recent)
  }

  function VerdictOf(images: seq<Image>, containers: seq<Container>, s: Settings, i: nat): Verdict
    requires i < |images|
  {
    Judge(images[i], containers, s, RollbackIds(images, KeepN(s)))
  }

  function CandidateOf(img: Image, reason: Reason): Candidate {
    Candidate(img.id, Refs(img), img.size, img.created, ProjectOf(img.tags), reason)
  }

  function KeptList(images: seq<Image>, containers: seq<Container>, s: Settings, rollback: set<string>): seq<Kept> {
    if images == [] then []
    else
      var img := images[|images| - 1];
      var v := Judge(img, containers, s, rollback);
      KeptList(images[..|images| - 1], containers, s, rollback)
      + if v.Keep? then [Kept(img.id, img.tags, v.reason)] else []
  }

  function RemoveList(images: seq<Image>, containers: seq<Container>, s: Settings, rollback: set<string>): seq<Candidate> {
    if images == [] then []
    else
      var img := images[|images| - 1];
      var v := Judge(img, containers, s, rollback);
      RemoveList(images[..|images| - 1], containers, s, rollback)
      + if v.Remove? then [CandidateOf(img, v.reason)] else []
  }

  // ---------------------------------------------------------------------------------- sorting

  /** Stable insertion of the last listed index by creation time, most recent first. */
  function InsertIndex(images: seq<Image>, sorted: seq<nat>, i: nat): (r: seq<nat>)
    requires i < |images| && forall k :: 0 <= k < |sorted| ==> sorted[k] < |images|
    ensures |r| == |sorted| + 1 && multiset(r) == multiset(sorted) + multiset{i}
    ensures forall k :: 0 <= k < |r| ==> r[k] < |images|
  {
    if sorted == [] then [i]
    else if images[i].created > images[sorted[0]].created then [i] + sorted
    else
      var rest := InsertIndex(images, sorted[1..], i);
      assert sorted == [sorted[0]] + sorted[1..];
      [sorted[0]] + rest
  }

  /** `sort_by(|a, b| b.created.cmp(&a.created))` on a list of indices. */
  function SortRecent(images: seq<Image>, list: seq<nat>): (r: seq<nat>)
    requires forall k :: 0 <= k < |list| ==> list[k] < |images|
    ensures |r| == |list| && multiset(r) == multiset(list)
    ensures forall k :: 0 <= k < |r| ==> r[k] < |images|
  {
    if list == [] then []
    else
      var n := |list| - 1;
      assert list == list[..n] + [list[n]];
      InsertIndex(images, SortRecent(images, list[..n]), list[n])
  }

  ghost predicate Ranked(images: seq<Image>, sorted: seq<nat>) {
    && (forall k :: 0 <= k < |sorted| ==> sorted[k] < |images|)
    && (forall a, b :: 0 <= a < b < |sorted| ==> Ahead(images, sorted[a], sorted[b]))
  }

  lemma InsertMembers(images: seq<Image>, sorted: seq<nat>, i: nat, b: nat)
    requires i < |images| && (forall k :: 0 <= k < |sorted| ==> sorted[k] < |images|)
    requires b < |InsertIndex(images, sorted, i)|
    ensures InsertIndex(images, sorted, i)[b] == i || InsertIndex(images, sorted, i)[b] in sorted
  {
    assert InsertIndex(images, sorted, i)[b] in multiset(InsertIndex(images, sorted, i));
  }

  lemma RankedCons(images: seq<Image>, first: nat, rest: seq<nat>)
    requires first < |images| && Ranked(images, rest)
    requires forall b :: 0 <= b < |rest| ==> Ahead(images, first, rest[b])
    ensures Ranked(images, [first] + rest)
  {
  }

  lemma {:induction false} InsertRanked(images: seq<Image>, sorted: seq<nat>, i: nat)
    requires i < |images| && Ranked(images, sorted)
    requires forall k :: 0 <= k < |sorted| ==> sorted[k] < i
    ensures Ranked(images, InsertIndex(images, sorted, i))
  {
    if sorted != [] && images[i].created <= images[sorted[0]].created {
      var rest := InsertIndex(images, sorted[1..], i);
      InsertRanked(images, sorted[1..], i);
      forall b | 0 <= b < |rest|
        ensures Ahead(images, sorted[0], rest[b])
      {
        InsertMembers(images, sorted[1..], i, b);
      }
      RankedCons(images, sorted[0], rest);
    } else {
      forall b | 0 <= b < |sorted|
        ensures Ahead(images, i, sorted[b])
      {
        assert b > 0 ==> Ahead(images, sorted[0], sorted[b]);
      }
      RankedCons(images, i, sorted);
    }
  }

  ghost predicate Increasing(list: seq<nat>) {
    forall a, b :: 0 <= a < b < |list| ==> list[a] < list[b]
  }

  /** On an increasing list the stable sort yields the ranking. */
  lemma {:induction false} SortIsRanked(images: seq<Image>, list: seq<nat>)
    requires Increasing(list) && forall k :: 0 <= k < |list| ==> list[k] < |images|
    ensures Ranked(images, SortRecent(images, list))
  {
    if list != [] {
      var n := |list| - 1;
      SortIsRanked(images, list[..n]);
      var before := SortRecent(images, list[..n]);
      forall k | 0 <= k < |before|
        ensures before[k] < list[n]
      {
        assert before[k] in multiset(before);
        assert before[k] in list[..n];
      }
      InsertRanked(images, before, list[n]);
    }
  }

  function First(sorted: seq<nat>, n: nat): set<nat> {
    set k: nat | k < n && k < |sorted| :: sorted[k]
  }

  lemma {:induction false} PrefixSize(sorted: seq<nat>, p: nat)
    requires p <= |sorted| && forall a, b :: 0 <= a < b < |sorted| ==> sorted[a] != sorted[b]
    ensures |First(sorted, p)| == p
  {
    if p > 0 {
      PrefixSize(sorted, p - 1);
      assert First(sorted, p) == First(sorted, p - 1) + {sorted[p - 1]};
    }
  }

  /** In a ranking of all the members of a project, an image's rank is its position. */
  lemma PositionIsRank(images: seq<Image>, project: string, sorted: seq<nat>, p: nat)
    requires Ranked(images, sorted) && p < |sorted|
    requires forall i: nat :: i in sorted <==> i in Members(images, project)
    ensures Rank(images, sorted[p]) == p
  {
    var i := sorted[p];
    assert i in sorted && i in Members(images, project);
    var front := First(sorted, p);
    forall a, b | 0 <= a < b < |sorted|
      ensures sorted[a] != sorted[b]
    {
      assert Ahead(images, sorted[a], sorted[b]);
    }
    PrefixSize(sorted, p);
    assert AheadOf(images, i) == front by {
      forall j: nat
        ensures j in AheadOf(images, i) <==> j in front
      {
        if j in AheadOf(images, i) {
          assert j in Members(images, project) && j in sorted;
          var k :| 0 <= k < |sorted| && sorted[k] == j;
          assert forall b :: p < b < |sorted| ==> Ahead(images, sorted[p], sorted[b]);
          assert k < p;
        }
        if j in front {
          assert j in sorted && j in Members(images, project);
        }
      }
    }
  }

  // ------------------------------------------------------------------------ the selection itself

  /** `by_project`: the indices of each project's images, in the order listed. */
  function MembersBelow(images: seq<Image>, project: string, n: nat): (r: seq<nat>)
    requires n <= |images|
    ensures Increasing(r) && forall k :: 0 <= k < |r| ==> r[k] < n
    ensures forall i: nat :: i in r <==> i < n && i in Members(images, project)
  {
    if n == 0 then []
    else MembersBelow(images, project, n - 1) + if ProjectOf(images[n - 1].tags) == Some(project) then [n - 1] else []
  }

  function GroupOf(groups: map<string, seq<nat>>, project: string): seq<nat> {
    if project in groups then groups[project] else []
  }

  /** `entry(p).or_default().push(img)` for an image that has a project. */
  function AddTo(groups: map<string, seq<nat>>, project: Option<string>, n: nat): map<string, seq<nat>> {
    if project.Some? then groups[project.value := GroupOf(groups, project.value) + [n]] else groups
  }

  ghost predicate Grouped(images: seq<Image>, groups: map<string, seq<nat>>, n: nat)
    requires n <= |images|
  {
    forall p {:trigger GroupOf(groups, p)} {:trigger MembersBelow(images, p, n)} ::
      GroupOf(groups, p) == MembersBelow(images, p, n)
  }

  lemma GroupedNext(images: seq<Image>, groups: map<string, seq<nat>>, n: nat)
    requires n < |images| && Grouped(images, groups, n)
    ensures Grouped(images, AddTo(groups, ProjectOf(images[n].tags), n), n + 1)
  {
    var next := AddTo(groups, ProjectOf(images[n].tags), n);
    forall p
      ensures GroupOf(next, p) == MembersBelow(images, p, n + 1)
    {
      assert GroupOf(groups, p) == MembersBelow(images, p, n);
    }
  }

  /** The first loop of the selection. */
  method GroupByProject(images: seq<Image>) returns (groups: map<string, seq<nat>>)
    ensures Grouped(images, groups, |images|)
  {
    groups := map[];
    for n := 0 to |images|
      invariant Grouped(images, groups, n)
    {
      GroupedNext(images, groups, n);
      groups := AddTo(groups, ProjectOf(images[n].tags), n);
    }
  }

  /** The indices protected for rollback in one project. */
  function RollbackOf(images: seq<Image>, project: string, keepN: nat): set<nat> {
    set i | i in Members(images, project) && RollbackIndex(images, keepN, i)
  }

  lemma SortKeepsMembers(images: seq<Image>, project: string)
    ensures
      var sorted := SortRecent(images, MembersBelow(images, project, |images|));
      Ranked(images, sorted) && forall i: nat :: i in sorted <==> i in Members(images, project)
  {
    var list := MembersBelow(images, project, |images|);
    var sorted := SortRecent(images, list);
    SortIsRanked(images, list);
    forall i: nat
      ensures i in sorted <==> i in Members(images, project)
    {
      assert i in sorted <==> i in multiset(sorted);
      assert i in list <==> i in multiset(list);
    }
  }

  /** Taking the first `keepN` of a project's sorted images takes exactly those of rank below `keepN`. */
  lemma TopOfGroup(images: seq<Image>, project: string, keepN: nat)
    ensures First(SortRecent(images, MembersBelow(images, project, |images|)), keepN) == RollbackOf(images, project, keepN)
  {
    var sorted := SortRecent(images, MembersBelow(images, project, |images|));
    SortKeepsMembers(images, project);
    forall p: nat | p < |sorted|
      ensures Rank(images, sorted[p]) == p && sorted[p] in Members(images, project)
    {
      assert sorted[p] in sorted;
      PositionIsRank(images, project, sorted, p);
    }
    forall i | i in RollbackOf(images, project, keepN)
      ensures i in First(sorted, keepN)
    {
      assert i in sorted;
      var k :| 0 <= k < |sorted| && sorted[k] == i;
    }
  }

  /** The protected indices of the projects in `done`. */
  function ProtectedIn(images: seq<Image>, keepN: nat, done: set<string>): set<nat> {
    set i: nat | i < |images| && RollbackIndex(images, keepN, i) && ProjectOf(images[i].tags).value in done
  }

  lemma ProtectedNext(images: seq<Image>, keepN: nat, done: set<string>, p: string)
    ensures IdsOf(images, ProtectedIn(images, keepN, done + {p})) ==
            IdsOf(images, ProtectedIn(images, keepN, done)) + IdsOf(images, RollbackOf(images, p, keepN))
  {
  }

  /** Every project with a protected image has a group, so once all are done nothing is missing. */
  lemma AllProtected(images: seq<Image>, groups: map<string, seq<nat>>, keepN: nat)
    requires Grouped(images, groups, |images|)
    ensures IdsOf(images, ProtectedIn(images, keepN, groups.Keys)) == RollbackIds(images, keepN)
  {
    forall i: nat | i < |images| && RollbackIndex(images, keepN, i)
      ensures ProjectOf(images[i].tags).value in groups
    {
      var p := ProjectOf(images[i].tags).value;
      assert i in MembersBelow(images, p, |images|);
      assert GroupOf(groups, p) == MembersBelow(images, p, |images|);
    }
    assert ProtectedIn(images, keepN, groups.Keys) == set i: nat | i < |images| && RollbackIndex(images, keepN, i);
  }

  /** The second loop of the selection: each group is sorted and its first images protected. */
  method ProtectRollback(images: seq<Image>, groups: map<string, seq<nat>>, keepN: nat) returns (ids: set<string>)
    requires Grouped(images, groups, |images|)
    ensures ids == RollbackIds(images, keepN)
  {
    ids := {};
    var left := groups.Keys;
    ghost var done: set<string> := {};
    assert ProtectedIn(images, keepN, done) == {};
    while left != {}
      invariant done + left == groups.Keys
      invariant ids == IdsOf(images, ProtectedIn(images, keepN, done))
      decreases |left|
    {
      var p :| p in left;
      assert GroupOf(groups, p) == MembersBelow(images, p, |images|);
      TopOfGroup(images, p, keepN);
      ProtectedNext(images, keepN, done, p);
      ids := ids + IdsOf(images, First(SortRecent(images, groups[p]), keepN));
      left, done := left - {p}, done + {p};
    }
    assert done == groups.Keys;
    AllProtected(images, groups, keepN);
  }

  /** Stable insertion by size, largest first. */
  function InsertCandidate(sorted: seq<Candidate>, c: Candidate): (r: seq<Candidate>)
    ensures multiset(r) == multiset(sorted) + multiset{c}
  {
    if sorted == [] then [c]
    else if c.size > sorted[0].size then [c] + sorted
    else
      assert sorted == [sorted[0]] + sorted[1..];
      [sorted[0]] + InsertCandidate(sorted[1..], c)
  }

  function SortBySize(list: seq<Candidate>): (r: seq<Candidate>)
    ensures multiset(r) == multiset(list)
  {
    if list == [] then []
    else
      assert list == list[..|list| - 1] + [list[|list| - 1]];
      InsertCandidate(SortBySize(list[..|list| - 1]), list[|list| - 1])
  }

  lemma {:induction false} InsertKeepsOrder(sorted: seq<Candidate>, c: Candidate)
    requires forall a, b :: 0 <= a < b < |sorted| ==> sorted[a].size >= sorted[b].size
    ensures forall a, b :: 0 <= a < b < |InsertCandidate(sorted, c)| ==>
              InsertCandidate(sorted, c)[a].size >= InsertCandidate(sorted, c)[b].size
  {
    if sorted != [] && c.size <= sorted[0].size {
      var rest := InsertCandidate(sorted[1..], c);
      InsertKeepsOrder(sorted[1..], c);
      forall b | 0 <= b < |rest|
        ensures sorted[0].size >= rest[b].size
      {
        assert rest[b] in multiset(rest);
        assert rest[b] == c || rest[b] in sorted[1..];
      }
    }
  }

  /** Candidates are listed from the largest to the smallest. */
  lemma {:induction false} SortBySizeOrders(list: seq<Candidate>)
    ensures forall a, b :: 0 <= a < b < |SortBySize(list)| ==> SortBySize(list)[a].size >= SortBySize(list)[b].size
  {
    if list != [] {
      SortBySizeOrders(list[..|list| - 1]);
      InsertKeepsOrder(SortBySize(list[..|list| - 1]), list[|list| - 1]);
    }
  }

  function OfSize(list: seq<Candidate>, size: nat): seq<Candidate> {
    if list == [] then [] else (if list[0].size == size then [list[0]] else []) + OfSize(list[1..], size)
  }

  lemma {:induction false} OfSizeSnoc(list: seq<Candidate>, c: Candidate, size: nat)
    ensures OfSize(list + [c], size) == OfSize(list, size) + if c.size == size then [c] else []
  {
    if list == [] {
      assert list + [c] == [c] + [];
      OfSizeCons(c, [], size);
    } else {
      assert list + [c] == [list[0]] + (list[1..] + [c]);
      OfSizeCons(list[0], list[1..] + [c], size);
      OfSizeSnoc(list[1..], c, size);
    }
  }

  lemma OfSizeCons(c: Candidate, rest: seq<Candidate>, size: nat)
    ensures OfSize([c] + rest, size) == (if c.size == size then [c] else []) + OfSize(rest, size)
  {
    assert ([c] + rest)[1..] == rest;
  }

  predicate Descending(list: seq<Candidate>) {
    forall a, b :: 0 <= a < b < |list| ==> list[a].size >= list[b].size
  }

  /** Inserting `c` puts it behind the others of its size. */
  predicate InsertsStably(sorted: seq<Candidate>, c: Candidate, size: nat) {
    OfSize(InsertCandidate(sorted, c), size) == OfSize(sorted, size) + if c.size == size then [c] else []
  }

  lemma InsertFirst(sorted: seq<Candidate>, c: Candidate, size: nat)
    requires sorted != [] && c.size > sorted[0].size && Descending(sorted)
    ensures InsertsStably(sorted, c, size)
  {
    OfSizeCons(c, sorted, size);
    if c.size == size {
      NoneOfSize(sorted, size);
    }
  }

  lemma ConsKeepsSize(first: Candidate, rest: seq<Candidate>, tail: seq<Candidate>, more: seq<Candidate>, size: nat)
    requires OfSize(rest, size) == OfSize(tail, size) + more
    ensures OfSize([first] + rest, size) == OfSize([first] + tail, size) + more
  {
    OfSizeCons(first, rest, size);
    OfSizeCons(first, tail, size);
  }

  lemma InsertUnfolds(first: Candidate, tail: seq<Candidate>, c: Candidate)
    requires c.size <= first.size
    ensures InsertCandidate([first] + tail, c) == [first] + InsertCandidate(tail, c)
  {
    assert ([first] + tail)[1..] == tail;
  }

  lemma InsertLater(first: Candidate, tail: seq<Candidate>, c: Candidate, size: nat)
    requires c.size <= first.size && InsertsStably(tail, c, size)
    ensures InsertsStably([first] + tail, c, size)
  {
    InsertUnfolds(first, tail, c);
    ConsKeepsSize(first, InsertCandidate(tail, c), tail, if c.size == size then [c] else [], size);
  }

  lemma InsertAlone(c: Candidate, size: nat)
    ensures InsertsStably([], c, size)
  {
    OfSizeCons(c, [], size);
  }

  lemma DescendingTail(sorted: seq<Candidate>)
    requires sorted != [] && Descending(sorted)
    ensures Descending(sorted[1..]) && sorted == [sorted[0]] + sorted[1..]
  {
  }

  lemma {:induction false} InsertIsStable(sorted: seq<Candidate>, c: Candidate, size: nat)
    requires Descending(sorted)
    ensures InsertsStably(sorted, c, size)
  {
    if sorted == [] {
      InsertAlone(c, size);
    } else if c.size > sorted[0].size {
      InsertFirst(sorted, c, size);
    } else {
      DescendingTail(sorted);
      InsertIsStable(sorted[1..], c, size);
      InsertLater(sorted[0], sorted[1..], c, size);
    }
  }

  lemma {:induction false} NoneOfSize(list: seq<Candidate>, size: nat)
    requires forall a :: 0 <= a < |list| ==> list[a].size != size
    ensures OfSize(list, size) == []
  {
    if list != [] {
      NoneOfSize(list[1..], size);
    }
  }

  lemma SortSnoc(front: seq<Candidate>, c: Candidate)
    ensures SortBySize(front + [c]) == InsertCandidate(SortBySize(front), c)
  {
    assert (front + [c])[..|front|] == front;
  }

  /** Candidates of that size stand in the sorted list as in the list. */
  predicate StableFor(list: seq<Candidate>, size: nat) {
    OfSize(SortBySize(list), size) == OfSize(list, size)
  }

  lemma SnocIsStable(front: seq<Candidate>, c: Candidate, size: nat)
    requires StableFor(front, size)
    ensures StableFor(front + [c], size)
  {
    SortBySizeOrders(front);
    SortSnoc(front, c);
    InsertIsStable(SortBySize(front), c, size);
    OfSizeSnoc(front, c, size);
  }

  lemma {:induction false} StableForAll(list: seq<Candidate>, size: nat)
    ensures StableFor(list, size)
  {
    if list != [] {
      StableForAll(list[..|list| - 1], size);
      SnocIsStable(list[..|list| - 1], list[|list| - 1], size);
      assert list == list[..|list| - 1] + [list[|list| - 1]];
    }
  }

  /** Candidates of one size stay in the order in which they were found. */
  lemma SortBySizeIsStable(list: seq<Candidate>, size: nat)
    ensures OfSize(SortBySize(list), size) == OfSize(list, size)
  {
    StableForAll(list, size);
  }

  /** Every image's verdict, listed: what is kept in the order given, what is removed by size. */
  function Selection(images: seq<Image>, containers: seq<Container>, s: Settings): Plan {
    var rollback := RollbackIds(images, KeepN(s));
    Plan(SortBySize(RemoveList(images, containers, s, rollback)), KeptList(images, containers, s, rollback))
  }

  /** The selection as the collector runs it. */
  method SelectImages(images: seq<Image>, containers: seq<Container>, s: Settings) returns (plan: Plan)
    ensures plan == Selection(images, containers, s)
  {
    var running, used := RunningIds(containers), Used(containers);
    var groups := GroupByProject(images);
    var rollback := ProtectRollback(images, groups, KeepN(s));
    var kept: seq<Kept>, remove: seq<Candidate> := [], [];
    for n := 0 to |images|
      invariant kept == KeptList(images[..n], containers, s, rollback)
      invariant remove == RemoveList(images[..n], containers, s, rollback)
    {
      var img := images[n];
      assert images[..n + 1][..n] == images[..n];
      if img.id in running {
        kept := kept + [Kept(img.id, img.tags, RunningContainer)];
        continue;
      }
      if img.id in used {
        kept := kept + [Kept(img.id, img.tags, StoppedContainer)];
        continue;
      }
      if IsCurrentDeploy(img.tags) {
        kept := kept + [Kept(img.id, img.tags, CurrentDeploy)];
        continue;
      }
      var reason;
      if ProjectOf(img.tags).Some? {
        if img.id in rollback {
          kept := kept + [Kept(img.id, img.tags, Rollback)];
          continue;
        }
        reason := OldDeploy;
      } else if img.created <= Cutoff(s) {
        reason := if img.tags == [] then Orphan else Unused;
      } else {
        kept := kept + [Kept(img.id, img.tags, Recent)];
        continue;
      }
      if !SafeRefs(img) {
        kept := kept + [Kept(img.id, img.tags, UnsafeRef)];
        continue;
      }
      remove := remove + [CandidateOf(img, reason)];
    }
    assert images[..|images|] == images;
    plan := Plan(SortBySize(remove), kept);
  }

  // --------------------------------------------------------------------------------- inventory

  ghost predicate UniqueIds(images: seq<Image>) {
    forall i, j :: 0 <= i < j < |images| ==> images[i].id != images[j].id
  }

  predicate FirstOfItsId(lines: seq<Option<Image>>, k: nat)
    requires k < |lines|
  {
    lines[k].Some? && forall j :: 0 <= j < k && lines[j].Some? ==> lines[j].value.id != lines[k].value.id
  }

  /** The image lines of an inventory, `None` where a line does not parse: the first line of each id counts. */
  method ParseImages(lines: seq<Option<Image>>) returns (images: seq<Image>)
    ensures UniqueIds(images)
    ensures forall img :: img in images ==> Some(img) in lines
    ensures forall k :: 0 <= k < |lines| && lines[k].Some? ==> exists i :: 0 <= i < |images| && images[i].id == lines[k].value.id
    ensures forall k :: 0 <= k < |lines| && FirstOfItsId(lines, k) ==> lines[k].value in images
  {
    images := [];
    var seen: set<string> := {};
    for n := 0 to |lines|
      invariant forall id :: id in seen <==> exists i :: 0 <= i < |images| && images[i].id == id
      invariant forall id :: id in seen ==> exists j :: 0 <= j < n && lines[j].Some? && lines[j].value.id == id
      invariant UniqueIds(images)
      invariant forall img :: img in images ==> Some(img) in lines
      invariant forall k :: 0 <= k < n && lines[k].Some? ==> lines[k].value.id in seen
      invariant forall k :: 0 <= k < n && FirstOfItsId(lines, k) ==> lines[k].value in images
    {
      if lines[n].Some? {
        var img := lines[n].value;
        if img.id !in seen {
          seen := seen + {img.id};
          ghost var before := images;
          images := images + [img];
          assert forall i :: 0 <= i < |before| ==> images[i] == before[i];
          assert images[|before|].id == img.id;
        }
      }
    }
  }
}
