/** The project counts that a rebalance keeps while it plans each project in turn. */
module Rebalance {
  import opened Text

  type Counts = map<string, nat>

  function CountOf(c: Counts, node: string): nat {
    if node in c then c[node] else 0
  }

  /** `c` counts, for every node, how often it occurs in `placed`. */
  ghost predicate Tallies(c: Counts, placed: seq<string>) {
    forall n :: CountOf(c, n) == multiset(placed)[n]
  }

  ghost function Total(c: Counts): nat
    decreases |c|
  {
    if c == map[] then 0
    else
      var n :| n in c;
      c[n] + Total(c - {n})
  }

  lemma {:induction false} TotalIsSize(c: Counts, placed: multiset<string>)
    requires forall n :: CountOf(c, n) == placed[n]
    ensures Total(c) == |placed|
    decreases |c|
  {
    if c == map[] {
      assert placed == multiset{} by {
        assert forall n :: placed[n] == CountOf(c, n) == 0;
      }
    } else {
      var n :| n in c && Total(c) == c[n] + Total(c - {n});
      assert (c - {n}).Keys == c.Keys - {n};
      TotalIsSize(c - {n}, placed[n := 0]);
    }
  }

  function SaturatingSub(a: nat, b: nat): nat {
    if a < b then 0 else a - b
  }

  function Bump(c: Counts, node: string): Counts {
    c[node := CountOf(c, node) + 1]
  }

  function Keys(servers: seq<string>): seq<string> {
    seq(|servers|, i requires 0 <= i < |servers| => NodeKey(servers[i]))
  }

  lemma BumpTallies(c: Counts, placed: seq<string>, node: string)
    requires Tallies(c, placed)
    ensures Tallies(Bump(c, node), placed + [node])
  {
  }

  /** Removing one placement from the middle takes exactly one from its node, so the subtraction never saturates. */
  lemma RemoveTallies(c: Counts, before: seq<string>, node: string, after: seq<string>)
    requires Tallies(c, before + [node] + after)
    ensures CountOf(c, node) >= 1
    ensures Tallies(c[node := SaturatingSub(CountOf(c, node), 1)], before + after)
  {
    var less := c[node := SaturatingSub(CountOf(c, node), 1)];
    assert multiset(before + [node] + after) == multiset(before + after) + multiset{node};
    assert CountOf(c, node) == multiset(before + [node] + after)[node];
    forall n
      ensures CountOf(less, n) == multiset(before + after)[n]
    {
      assert CountOf(c, n) == multiset(before + [node] + after)[n];
    }
  }

  lemma InsertTallies(c: Counts, before: seq<string>, node: string, after: seq<string>)
    requires Tallies(c, before + after)
    ensures Tallies(Bump(c, node), before + [node] + after)
  {
  }

  /** The first loop: how many projects each node has. */
  method CountProjects(servers: seq<string>) returns (counts: Counts)
    ensures Tallies(counts, Keys(servers))
  {
    counts := map[];
    assert Keys(servers)[..0] == [];
    for i := 0 to |servers|
      invariant Tallies(counts, Keys(servers)[..i])
    {
      var key := NodeKey(servers[i]);
      BumpTallies(counts, Keys(servers)[..i], key);
      assert Keys(servers)[..i + 1] == Keys(servers)[..i] + [key];
      counts := Bump(counts, key);
    }
    assert Keys(servers)[..|servers|] == Keys(servers);
  }

  /** `pick_placement` is any function of the counts; a project goes where it says, or stays when it says nothing. */
  ghost predicate Places(pick: Counts -> Option<string>, others: seq<string>, from: string, to: string) {
    exists c: Counts :: Tallies(c, others)
                        && (pick(c).Some? ==> to == NodeKey(pick(c).value))
                        && (pick(c).None? ==> to == from)
  }

  ghost predicate PlacedAmongOthers(servers: seq<string>, pick: Counts -> Option<string>, planned: seq<string>, i: nat)
    requires i < |servers|
  {
    i < |planned| && Places(pick, planned[..i] + Keys(servers)[i + 1..], NodeKey(servers[i]), planned[i])
  }

  ghost predicate AllPlaced(servers: seq<string>, pick: Counts -> Option<string>, planned: seq<string>) {
    |planned| <= |servers| && forall k :: 0 <= k < |planned| ==> PlacedAmongOthers(servers, pick, planned, k)
  }

  lemma PlacedStays(servers: seq<string>, pick: Counts -> Option<string>, planned: seq<string>, to: string)
    requires |planned| < |servers|
    requires AllPlaced(servers, pick, planned)
    requires Places(pick, planned + Keys(servers)[|planned| + 1..], NodeKey(servers[|planned|]), to)
    ensures AllPlaced(servers, pick, planned + [to])
  {
    var next := planned + [to];
    forall k | 0 <= k <= |planned|
      ensures PlacedAmongOthers(servers, pick, next, k)
    {
      if k < |planned| {
        assert PlacedAmongOthers(servers, pick, planned, k);
        assert next[..k] == planned[..k];
      } else {
        assert next[..k] == planned;
      }
    }
  }

  /** One turn of the planning loop: the project leaves the counts, is placed, and is counted where it goes. */
  method PlaceOne(counts: Counts, ghost before: seq<string>, from: string, ghost after: seq<string>, pick: Counts -> Option<string>)
    returns (next: Counts, to: string)
    requires Tallies(counts, before + [from] + after)
    ensures Tallies(next, before + [to] + after)
    ensures Places(pick, before + after, from, to)
  {
    RemoveTallies(counts, before, from, after);
    var without := counts[from := SaturatingSub(CountOf(counts, from), 1)];
    to := from;
    match pick(without) {
      case Some(choice) => to := NodeKey(choice);
      case None =>
    }
    InsertTallies(without, before, to, after);
    next := Bump(without, to);
  }

  /**
   Each project is placed by what the others count: those planned before it where they were planned,
   those after it where they still are. In the end the counts are those of the plan and still sum to
   the number of projects.
   */
  method Plan(servers: seq<string>, pick: Counts -> Option<string>) returns (counts: Counts, planned: seq<string>)
    ensures |planned| == |servers|
    ensures Tallies(counts, planned)
    ensures Total(counts) == |servers|
    ensures forall i :: 0 <= i < |servers| ==> PlacedAmongOthers(servers, pick, planned, i)
  {
    counts := CountProjects(servers);
    ghost var keys := Keys(servers);
    planned := [];
    assert planned + keys[0..] == keys;
    for i := 0 to |servers|
      invariant |planned| == i
      invariant Tallies(counts, planned + keys[i..])
      invariant AllPlaced(servers, pick, planned)
    {
      var from := NodeKey(servers[i]);
      assert planned + keys[i..] == planned + [from] + keys[i + 1..];
      var next, to := PlaceOne(counts, planned, from, keys[i + 1..], pick);
      PlacedStays(servers, pick, planned, to);
      counts, planned := next, planned + [to];
    }
    assert planned + keys[|servers|..] == planned;
    TotalIsSize(counts, multiset(planned));
  }
}
