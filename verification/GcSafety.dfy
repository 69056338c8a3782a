/** What the selection of the image collector guarantees, for every inventory. */
module GcSafety {
  import opened Text
  import opened ImageNames
  import opened DockerGc

  // ------------------------------------------------------------------------- both lists are exact

  lemma {:induction false} KeptExactly(images: seq<Image>, containers: seq<Container>, s: Settings, rollback: set<string>, k: Kept)
    ensures k in KeptList(images, containers, s, rollback) <==>
              exists i :: 0 <= i < |images| && Judge(images[i], containers, s, rollback) == Keep(k.reason)
                          && k == Kept(images[i].id, images[i].tags, k.reason)
  {
    if images != [] {
      var front, last := images[..|images| - 1], images[|images| - 1];
      KeptExactly(front, containers, s, rollback, k);
      assert forall i :: 0 <= i < |front| ==> images[i] == front[i];
    }
  }

  lemma {:induction false} RemovedExactly(images: seq<Image>, containers: seq<Container>, s: Settings, rollback: set<string>, c: Candidate)
    ensures c in RemoveList(images, containers, s, rollback) <==>
              exists i :: 0 <= i < |images| && Judge(images[i], containers, s, rollback) == Remove(c.reason)
                          && c == CandidateOf(images[i], c.reason)
  {
    if images != [] {
      var front, last := images[..|images| - 1], images[|images| - 1];
      RemovedExactly(front, containers, s, rollback, c);
      assert forall i :: 0 <= i < |front| ==> images[i] == front[i];
    }
  }

  lemma {:induction false} ListsShareOut(images: seq<Image>, containers: seq<Container>, s: Settings, rollback: set<string>)
    ensures |KeptList(images, containers, s, rollback)| + |RemoveList(images, containers, s, rollback)| == |images|
  {
    if images != [] {
      ListsShareOut(images[..|images| - 1], containers, s, rollback);
    }
  }

  lemma SortedHasSame(list: seq<Candidate>)
    ensures |SortBySize(list)| == |list|
    ensures forall c :: c in SortBySize(list) <==> c in list
  {
    assert |multiset(SortBySize(list))| == |multiset(list)|;
    forall c
      ensures c in SortBySize(list) <==> c in list
    {
      assert c in SortBySize(list) <==> c in multiset(SortBySize(list));
      assert c in list <==> c in multiset(list);
    }
  }

  predicate InRemoved(plan: Plan, id: string) {
    exists c :: c in plan.remove && c.id == id
  }

  predicate InKept(plan: Plan, id: string) {
    exists k :: k in plan.kept && k.id == id
  }

  /** With unique ids, every image is in exactly one of the two lists, and nothing else is in either. */
  lemma EachImageOnce(images: seq<Image>, containers: seq<Container>, s: Settings, i: nat)
    requires UniqueIds(images) && i < |images|
    ensures
      var plan := Selection(images, containers, s);
      && (InRemoved(plan, images[i].id) <==> VerdictOf(images, containers, s, i).Remove?)
      && (InKept(plan, images[i].id) <==> VerdictOf(images, containers, s, i).Keep?)
      && |plan.kept| + |plan.remove| == |images|
  {
    var plan, rollback := Selection(images, containers, s), RollbackIds(images, KeepN(s));
    var list := RemoveList(images, containers, s, rollback);
    ListsShareOut(images, containers, s, rollback);
    SortedHasSame(list);
    var img, v := images[i], VerdictOf(images, containers, s, i);
    if v.Remove? {
      RemovedExactly(images, containers, s, rollback, CandidateOf(img, v.reason));
    } else {
      KeptExactly(images, containers, s, rollback, Kept(img.id, img.tags, v.reason));
    }
    forall c | c in plan.remove && c.id == img.id
      ensures v.Remove?
    {
      RemovedExactly(images, containers, s, rollback, c);
      var j :| 0 <= j < |images| && Judge(images[j], containers, s, rollback) == Remove(c.reason) && c == CandidateOf(images[j], c.reason);
      assert j == i;
    }
    forall k | k in plan.kept && k.id == img.id
      ensures v.Keep?
    {
      KeptExactly(images, containers, s, rollback, k);
      var j :| 0 <= j < |images| && Judge(images[j], containers, s, rollback) == Keep(k.reason) && k == Kept(images[j].id, images[j].tags, k.reason);
      assert j == i;
    }
  }

  // ------------------------------------------------------------------------------ what is spared

  /** What a verdict of removal says about the image. */
  lemma RemoveMeans(img: Image, containers: seq<Container>, s: Settings, rollback: set<string>)
    requires Judge(img, containers, s, rollback).Remove?
    ensures forall k :: k in containers ==> k.imageId != img.id
    ensures !IsCurrentDeploy(img.tags) && SafeRefs(img)
    ensures ProjectOf(img.tags).None? ==> img.created <= Cutoff(s)
    ensures ProjectOf(img.tags).Some? ==> img.id !in rollback
  {
  }

  /**
   Nothing that a container in any state uses is removed, nothing tagged `df-…:latest`, nothing
   recent outside the projects, and every reference to be removed is safe to pass to a shell.
   */
  lemma RemovedIsUnused(images: seq<Image>, containers: seq<Container>, s: Settings, c: Candidate) returns (i: nat)
    requires c in Selection(images, containers, s).remove
    ensures i < |images| && c.id == images[i].id && c.size == images[i].size && c.created == images[i].created
    ensures c.refs == (if images[i].tags == [] then [images[i].id] else images[i].tags) && c.project == ProjectOf(images[i].tags)
    ensures forall k :: k in containers ==> k.imageId != c.id
    ensures !IsCurrentDeploy(images[i].tags)
    ensures c.project.None? ==> images[i].created <= s.now - s.retentionHours as real * 3600.0
    ensures c.project.Some? ==> Rank(images, i) >= s.keepPerProject && Rank(images, i) >= 1
    ensures forall r :: r in c.refs ==> IsSafeRef(r)
  {
    var rollback := RollbackIds(images, KeepN(s));
    SortedHasSame(RemoveList(images, containers, s, rollback));
    RemovedExactly(images, containers, s, rollback, c);
    var j :| 0 <= j < |images| && Judge(images[j], containers, s, rollback) == Remove(c.reason) && c == CandidateOf(images[j], c.reason);
    i := j;
    RemoveMeans(images[i], containers, s, rollback);
    if c.project.Some? && Rank(images, i) < KeepN(s) {
      ProtectedIsKept(images, containers, s, i);
    }
  }

  lemma ProtectedIsKept(images: seq<Image>, containers: seq<Container>, s: Settings, i: nat)
    requires RollbackIndex(images, KeepN(s), i)
    ensures VerdictOf(images, containers, s, i).Keep?
  {
  }

  /** With unique ids an image's id is protected exactly when the image itself is. */
  lemma ProtectedById(images: seq<Image>, keepN: nat, i: nat)
    requires UniqueIds(images) && i < |images|
    ensures images[i].id in RollbackIds(images, keepN) <==> RollbackIndex(images, keepN, i)
  {
    if images[i].id in RollbackIds(images, keepN) {
      var j: nat :| j < |images| && RollbackIndex(images, keepN, j) && images[j].id == images[i].id;
      assert j == i;
    }
  }

  /**
   An image is removed exactly when no container uses it, it is no current deployment, all its references
   are safe, and it is either beyond the `keepN` newest of its project or, outside projects, old enough.
   */
  lemma RemovedExactlyWhen(images: seq<Image>, containers: seq<Container>, s: Settings, i: nat)
    requires UniqueIds(images) && i < |images|
    ensures
      var img := images[i];
      VerdictOf(images, containers, s, i).Remove? <==>
        && (forall k :: k in containers ==> k.imageId != img.id)
        && !IsCurrentDeploy(img.tags)
        && (forall r :: r in img.tags ==> IsSafeRef(r))
        && (img.tags == [] ==> IsSafeRef(img.id))
        && (if ProjectOf(img.tags).Some? then Rank(images, i) >= s.keepPerProject && Rank(images, i) >= 1
            else img.created <= s.now - s.retentionHours as real * 3600.0)
  {
    ProtectedById(images, KeepN(s), i);
    assert images[i].id in Used(containers) <==> exists k :: k in containers && k.imageId == images[i].id;
  }

  lemma RankedApart(images: seq<Image>, sorted: seq<nat>)
    requires Ranked(images, sorted)
    ensures forall a, b :: 0 <= a < b < |sorted| ==> sorted[a] != sorted[b]
  {
    forall a, b | 0 <= a < b < |sorted|
      ensures sorted[a] != sorted[b]
    {
      assert Ahead(images, sorted[a], sorted[b]);
    }
  }

  lemma PrefixIsRecent(images: seq<Image>, sorted: seq<nat>, n: nat, pos: nat, j: nat)
    requires Ranked(images, sorted)
    requires n <= pos < |sorted| && j in First(sorted, n)
    ensures images[j].created >= images[sorted[pos]].created
  {
    var k: nat :| k < n && k < |sorted| && sorted[k] == j;
    assert Ahead(images, sorted[k], sorted[pos]);
  }

  /**
   When a project's image is removed, `keepN` other images of the project are kept, each at least as
   recent.
   */
  lemma ReplacementsKept(images: seq<Image>, containers: seq<Container>, s: Settings, i: nat) returns (kept: set<nat>)
    requires i < |images| && ProjectOf(images[i].tags).Some? && VerdictOf(images, containers, s, i).Remove?
    ensures |kept| == if s.keepPerProject == 0 then 1 else s.keepPerProject
    ensures forall j :: j in kept ==>
              && j < |images|
              && ProjectOf(images[j].tags) == ProjectOf(images[i].tags)
              && images[j].created >= images[i].created
              && VerdictOf(images, containers, s, j).Keep?
  {
    var p, n := ProjectOf(images[i].tags).value, KeepN(s);
    var sorted := SortRecent(images, MembersBelow(images, p, |images|));
    SortKeepsMembers(images, p);
    assert i in sorted;
    var pos :| 0 <= pos < |sorted| && sorted[pos] == i;
    PositionIsRank(images, p, sorted, pos);
    assert Rank(images, i) >= n by {
      if Rank(images, i) < n {
        ProtectedIsKept(images, containers, s, i);
      }
    }
    kept := First(sorted, n);
    RankedApart(images, sorted);
    PrefixSize(sorted, n);
    TopOfGroup(images, p, n);
    forall j | j in kept
      ensures images[j].created >= images[i].created && VerdictOf(images, containers, s, j).Keep?
    {
      ProtectedIsKept(images, containers, s, j);
      PrefixIsRecent(images, sorted, n, pos, j);
    }
  }

  /** An image with a tag `latest` on a `df-` repository, Docker's registry in front or not, is never removed. */
  lemma CurrentDeployKept(images: seq<Image>, containers: seq<Container>, s: Settings, i: nat, reg: string, p: string)
    requires i < |images| && Registry(reg) && reg + ("df-" + p) + ":latest" in images[i].tags
    ensures VerdictOf(images, containers, s, i).Keep?
    ensures UniqueIds(images) ==> !InRemoved(Selection(images, containers, s), images[i].id)
  {
    LatestIsCurrent(reg, p, images[i].tags);
    if UniqueIds(images) {
      EachImageOnce(images, containers, s, i);
    }
  }

  /** An image whose first project tag is `df-p:v` counts in project `df-p`, and is kept while fewer than the number kept are ahead. */
  lemma ProjectTagProtects(images: seq<Image>, containers: seq<Container>, s: Settings, i: nat,
                           earlier: seq<string>, reg: string, p: string, v: string, later: seq<string>)
    requires i < |images| && images[i].tags == earlier + [reg + ("df-" + p) + ":" + v] + later
    requires Registry(reg) && IsProjectText(p) && ':' !in v && '/' !in v
    requires forall t :: t in earlier ==> ProjectOf([t]).None?
    ensures ProjectOf(images[i].tags) == Some("df-" + p) && i in Members(images, "df-" + p)
    ensures Rank(images, i) < s.keepPerProject || Rank(images, i) == 0 ==> VerdictOf(images, containers, s, i).Keep?
  {
    TagNamesProject(reg, p, v);
    FirstTagDecides(earlier, reg + ("df-" + p) + ":" + v, later);
    if Rank(images, i) < s.keepPerProject || Rank(images, i) == 0 {
      ProtectedIsKept(images, containers, s, i);
    }
  }

  /** Which reason is given for keeping an image, and which for removing it. */
  lemma ReasonIs(images: seq<Image>, containers: seq<Container>, s: Settings, i: nat)
    requires i < |images|
    ensures
      var img, v := images[i], VerdictOf(images, containers, s, i);
      var used := exists k :: k in containers && k.imageId == img.id;
      var running := exists k :: k in containers && k.imageId == img.id && k.state in ["running", "restarting", "paused"];
      && (v == Keep(RunningContainer) <==> running)
      && (v == Keep(StoppedContainer) <==> used && !running)
      && (v == Keep(CurrentDeploy) <==> !used && IsCurrentDeploy(img.tags))
      && (v in [Keep(Rollback), Remove(OldDeploy)] ==> ProjectOf(img.tags).Some?)
      && (v == Keep(Recent) ==> img.created > s.now - s.retentionHours as real * 3600.0)
      && (v == Remove(Orphan) ==> img.tags == []) && (v == Remove(Unused) ==> img.tags != [])
  {
    var img := images[i];
    assert img.id in Used(containers) <==> exists k :: k in containers && k.imageId == img.id;
    assert img.id in RunningIds(containers) <==> exists k :: k in containers && k.imageId == img.id && IsRunning(k.state);
  }

  // ---------------------------------------------------------------------------------- monotone

  /** More rollbacks or a longer retention can only shrink what is removed. */
  lemma SelectionMonotone(images: seq<Image>, containers: seq<Container>, s: Settings, t: Settings, i: nat)
    requires i < |images| && s.now == t.now
    requires s.retentionHours <= t.retentionHours && s.keepPerProject <= t.keepPerProject
    ensures VerdictOf(images, containers, t, i).Remove? ==> VerdictOf(images, containers, s, i) == VerdictOf(images, containers, t, i)
  {
  }

  // --------------------------------------------------------------------------------- fixed point

  /** The indices of the images that survive, in order. */
  function SurvivorsBelow(images: seq<Image>, containers: seq<Container>, s: Settings, n: nat): (r: seq<nat>)
    requires n <= |images|
    ensures Increasing(r) && forall k :: 0 <= k < |r| ==> r[k] < n
  {
    if n == 0 then []
    else SurvivorsBelow(images, containers, s, n - 1) + if VerdictOf(images, containers, s, n - 1).Keep? then [n - 1] else []
  }

  lemma {:induction false} SurvivorsAreKept(images: seq<Image>, containers: seq<Container>, s: Settings, n: nat, i: nat)
    requires n <= |images|
    ensures i in SurvivorsBelow(images, containers, s, n) <==> i < n && VerdictOf(images, containers, s, i).Keep?
  {
    if n > 0 {
      SurvivorsAreKept(images, containers, s, n - 1, i);
    }
  }

  function Pick(images: seq<Image>, indices: seq<nat>): (r: seq<Image>)
    requires forall k :: 0 <= k < |indices| ==> indices[k] < |images|
    ensures |r| == |indices| && forall k :: 0 <= k < |r| ==> r[k] == images[indices[k]]
  {
    seq(|indices|, k requires 0 <= k < |indices| => images[indices[k]])
  }

  function Survivors(images: seq<Image>, containers: seq<Container>, s: Settings): seq<Image> {
    Pick(images, SurvivorsBelow(images, containers, s, |images|))
  }

  lemma {:induction false} ImageSize(a: set<nat>, b: set<nat>, f: seq<nat>)
    requires forall x :: x in a ==> x < |f| && f[x] in b
    requires forall x, y :: x in a && y in a && f[x] == f[y] ==> x == y
    ensures |a| <= |b|
    decreases |a|
  {
    if a != {} {
      var x :| x in a;
      ImageSize(a - {x}, b - {f[x]}, f);
    }
  }

  /** Dropping images, in order, never pushes a remaining one down its project's ranking. */
  lemma RankDrops(images: seq<Image>, indices: seq<nat>, k: nat)
    requires Increasing(indices) && k < |indices|
    requires forall j :: 0 <= j < |indices| ==> indices[j] < |images|
    ensures Rank(Pick(images, indices), k) <= Rank(images, indices[k])
  {
    var picked := Pick(images, indices);
    forall x | x in AheadOf(picked, k)
      ensures indices[x] in AheadOf(images, indices[k])
    {
    }
    ImageSize(AheadOf(picked, k), AheadOf(images, indices[k]), indices);
  }

  /** Running the selection again on what it kept, at the same time and settings, removes nothing. */
  lemma SelectionIsFixedPoint(images: seq<Image>, containers: seq<Container>, s: Settings, k: nat)
    requires k < |Survivors(images, containers, s)|
    ensures VerdictOf(Survivors(images, containers, s), containers, s, k).Keep?
  {
    var indices := SurvivorsBelow(images, containers, s, |images|);
    var survivors := Survivors(images, containers, s);
    var i := indices[k];
    SurvivorsAreKept(images, containers, s, |images|, i);
    if images[i].id in RollbackIds(images, KeepN(s)) {
      var j: nat :| j < |images| && RollbackIndex(images, KeepN(s), j) && images[j].id == images[i].id;
      ProtectedIsKept(images, containers, s, j);
      SurvivorsAreKept(images, containers, s, |images|, j);
      var m :| 0 <= m < |indices| && indices[m] == j;
      RankDrops(images, indices, m);
      assert RollbackIndex(survivors, KeepN(s), m);
      assert images[i].id in RollbackIds(survivors, KeepN(s));
    }
  }

  lemma {:induction false} AllKeptNoneRemoved(images: seq<Image>, containers: seq<Container>, s: Settings, rollback: set<string>)
    requires forall i :: 0 <= i < |images| ==> Judge(images[i], containers, s, rollback).Keep?
    ensures RemoveList(images, containers, s, rollback) == []
  {
    if images != [] {
      AllKeptNoneRemoved(images[..|images| - 1], containers, s, rollback);
    }
  }

  lemma SecondRunRemovesNothing(images: seq<Image>, containers: seq<Container>, s: Settings)
    ensures Selection(Survivors(images, containers, s), containers, s).remove == []
  {
    var survivors := Survivors(images, containers, s);
    forall k | 0 <= k < |survivors|
      ensures Judge(survivors[k], containers, s, RollbackIds(survivors, KeepN(s))).Keep?
    {
      SelectionIsFixedPoint(images, containers, s, k);
    }
    AllKeptNoneRemoved(survivors, containers, s, RollbackIds(survivors, KeepN(s)));
  }
}
