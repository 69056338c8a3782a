/** Image references: how a tag is split, which project an image belongs to, and which refs may reach a shell. */
module ImageNames {
  import opened Text

  /** `trim_start_matches`: the prefix is removed as often as it occurs. */
  function TrimPrefix(s: string, p: string): string
    requires p != []
    decreases |s|
  {
    if p <= s then TrimPrefix(s[|p|..], p) else s
  }

  /** The position after the last `:`, or 0. */
  function AfterColon(s: string, i: nat): (r: nat)
    requires i <= |s|
    ensures r <= i
    ensures r > 0 ==> s[r - 1] == ':'
    ensures forall k :: r <= k < i ==> s[k] != ':'
  {
    if i == 0 then 0 else if s[i - 1] == ':' then i else AfterColon(s, i - 1)
  }

  /** `docker.io/library/df-abc:r1` is repository `df-abc`, tag `r1`; a colon before a `/` is a port. */
  function SplitTag(tag: string): (string, string) {
    var t := TrimPrefix(TrimPrefix(tag, "docker.io/"), "library/");
    var i := AfterColon(t, |t|);
    if i > 0 && '/' !in t[i..] then (t[..i - 1], t[i..]) else (t, "latest")
  }

  /** What Docker may write in front of a repository of its own registry. */
  predicate Registry(p: string) {
    p == "" || p == "docker.io/" || p == "library/" || p == "docker.io/library/"
  }

  /** A text that begins with neither of the two prefixes. */
  predicate Unprefixed(t: string) {
    !("docker.io/" <= t) && !("library/" <= t)
  }

  lemma TrimOnce(p: string, t: string)
    requires p != [] && !(p <= t)
    ensures TrimPrefix(t, p) == t
    ensures TrimPrefix(p + t, p) == t
  {
    assert (p + t)[|p|..] == t;
  }

  lemma TrimBoth(x: string, y: string, t: string)
    requires x != [] && y != [] && !(x <= t) && !(y <= t) && !(x <= y + t)
    ensures TrimPrefix(TrimPrefix(t, x), y) == t
    ensures TrimPrefix(TrimPrefix(x + t, x), y) == t
    ensures TrimPrefix(TrimPrefix(y + t, x), y) == t
    ensures TrimPrefix(TrimPrefix(x + (y + t), x), y) == t
  {
    TrimOnce(x, t);
    TrimOnce(y, t);
    TrimOnce(x, y + t);
  }

  lemma RegistryTrims(p: string, t: string)
    requires Registry(p) && Unprefixed(t)
    ensures TrimPrefix(TrimPrefix(p + t, "docker.io/"), "library/") == t
  {
    var x, y := "docker.io/", "library/";
    assert x[0] != (y + t)[0];
    TrimBoth(x, y, t);
    assert "" + t == t && x + y + t == x + (y + t);
    assert "docker.io/library/" == x + y;
  }

  lemma ColonStopsPrefix(x: string, repo: string, rest: string)
    requires ':' !in x && x <= repo + (":" + rest)
    ensures x <= repo
  {
    var t := repo + (":" + rest);
    assert t[|repo|] == ':';
    assert forall k :: 0 <= k < |x| ==> x[k] == t[k];
    assert x == t[..|x|] == repo[..|x|];
  }

  lemma StillUnprefixed(repo: string, v: string)
    requires Unprefixed(repo)
    ensures Unprefixed(repo + (":" + v))
  {
    if "docker.io/" <= repo + (":" + v) {
      ColonStopsPrefix("docker.io/", repo, v);
    }
    if "library/" <= repo + (":" + v) {
      ColonStopsPrefix("library/", repo, v);
    }
  }

  lemma {:induction false} LastColon(head: string, tail: string, i: nat)
    requires |head| < i <= |head| + 1 + |tail| && ':' !in tail
    ensures AfterColon(head + ":" + tail, i) == |head| + 1
  {
    var s := head + ":" + tail;
    if i > |head| + 1 {
      assert s[i - 1] == tail[i - 2 - |head|];
      LastColon(head, tail, i - 1);
    }
  }

  /** Repository and tag are parted at their colon, with or without the registry in front. */
  lemma SplitsAtColon(p: string, repo: string, v: string)
    requires Registry(p) && Unprefixed(repo) && ':' !in v && '/' !in v
    ensures SplitTag(p + repo + ":" + v) == (repo, v)
  {
    var t := repo + (":" + v);
    assert t == repo + ":" + v && p + repo + ":" + v == p + t;
    StillUnprefixed(repo, v);
    RegistryTrims(p, t);
    LastColon(repo, v, |t|);
    assert t[..|repo|] == repo && t[|repo| + 1..] == v;
  }

  /** Without a colon after its last slash, a reference stands for the latest of the whole. */
  lemma SplitsUntagged(p: string, repo: string)
    requires Registry(p) && Unprefixed(repo)
    requires forall i :: 0 <= i < |repo| && repo[i] == ':' ==> '/' in repo[i + 1..]
    ensures SplitTag(p + repo) == (repo, "latest")
  {
    RegistryTrims(p, repo);
    var i := AfterColon(repo, |repo|);
    if i > 0 {
      assert repo[i - 1] == ':';
    }
  }

  predicate IsProjectRepo(repo: string) {
    "df-" <= repo && |repo| > 3 && forall i :: 3 <= i < |repo| ==> IsAlnum(repo[i]) || repo[i] == '-'
  }

  /** The first tag that names a project decides. */
  function ProjectOf(tags: seq<string>): Option<string> {
    if tags == [] then None
    else if IsProjectRepo(SplitTag(tags[0]).0) then Some(SplitTag(tags[0]).0)
    else ProjectOf(tags[1..])
  }

  predicate IsCurrentDeploy(tags: seq<string>) {
    exists t :: t in tags && "df-" <= SplitTag(t).0 && SplitTag(t).1 == "latest"
  }

  /** A project's own part of the name: letters, digits and dashes. */
  predicate IsProjectText(p: string) {
    p != [] && forall i :: 0 <= i < |p| ==> p[i] in UPPER || p[i] in LOWER || p[i] in DIGITS || p[i] == '-'
  }

  /** `df-` and such a text name a project, anything else does not. */
  lemma TagNamesProject(reg: string, p: string, v: string)
    requires Registry(reg) && ':' !in v && '/' !in v
    ensures ProjectOf([reg + ("df-" + p) + ":" + v]) == if IsProjectText(p) then Some("df-" + p) else None
  {
    var repo := "df-" + p;
    assert repo[0] == 'd' && repo[1] == 'f';
    SplitsAtColon(reg, repo, v);
    forall i | 0 <= i < |p|
      ensures IsAlnum(p[i]) <==> p[i] in UPPER || p[i] in LOWER || p[i] in DIGITS
    {
      CharClasses(p[i]);
    }
    assert forall i :: 0 <= i < |p| ==> repo[i + 3] == p[i];
  }

  lemma OtherTagNamesNone(reg: string, repo: string, v: string)
    requires Registry(reg) && Unprefixed(repo) && ':' !in v && '/' !in v && !("df-" <= repo)
    ensures ProjectOf([reg + repo + ":" + v]) == None
  {
    SplitsAtColon(reg, repo, v);
  }

  /** The first tag that names a project decides. */
  lemma {:induction false} FirstTagDecides(earlier: seq<string>, tag: string, later: seq<string>)
    requires forall t :: t in earlier ==> ProjectOf([t]).None?
    ensures ProjectOf(earlier + [tag] + later) == if ProjectOf([tag]).Some? then ProjectOf([tag]) else ProjectOf(later)
  {
    if earlier == [] {
      assert earlier + [tag] + later == [tag] + later;
    } else {
      var all := earlier + [tag] + later;
      assert all[0] == earlier[0] && all[1..] == earlier[1..] + [tag] + later;
      assert ProjectOf([earlier[0]]).None?;
      FirstTagDecides(earlier[1..], tag, later);
    }
  }

  /** The tag `latest` on any `df-` repository marks the current deployment. */
  lemma LatestIsCurrent(reg: string, p: string, tags: seq<string>)
    requires Registry(reg) && reg + ("df-" + p) + ":latest" in tags
    ensures IsCurrentDeploy(tags)
  {
    var repo := "df-" + p;
    assert repo[0] == 'd' && repo[1] == 'f';
    var v := "latest";
    SplitsAtColon(reg, repo, v);
    assert reg + repo + ":latest" == reg + repo + ":" + v;
  }

  /** Any other tag of such a repository does not, nor does one of a repository named otherwise. */
  lemma OthersAreNotCurrent(reg: string, repo: string, v: string)
    requires Registry(reg) && Unprefixed(repo) && ':' !in v && '/' !in v
    requires v != "latest" || !("df-" <= repo)
    ensures !IsCurrentDeploy([reg + repo + ":" + v])
  {
    SplitsAtColon(reg, repo, v);
  }

  predicate RefChar(c: char) {
    IsAlnum(c) || c == '-' || c == '_' || c == '.' || c == ':' || c == '/' || c == '@'
  }

  predicate IsSafeRef(s: string) {
    s != [] && |s| <= 256 && forall i :: 0 <= i < |s| ==> RefChar(s[i])
  }

  /** The references let through are those of one to 256 characters out of this list. */
  lemma SafeRefIs(s: string)
    ensures IsSafeRef(s) <==>
              1 <= |s| <= 256
              && forall i :: 0 <= i < |s| ==> s[i] in UPPER || s[i] in LOWER || s[i] in DIGITS || s[i] in "-_.:/@"
  {
    forall i | 0 <= i < |s|
      ensures IsAlnum(s[i]) <==> s[i] in UPPER || s[i] in LOWER || s[i] in DIGITS
    {
      CharClasses(s[i]);
    }
  }
}
