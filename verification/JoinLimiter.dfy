/** The limiter of cluster joins: twenty accepted joins per address and window of sixty seconds. */
module JoinLimiter {

  /** Seconds; times are instants, so fractions count. */
  const WINDOW: real := 60.0
  const LIMIT: int := 20

  /** Count and start of an address's current window. */
  datatype Entry = Entry(count: int, start: real)

  type Table = map<string, Entry>

  /** `retain`: windows that have lasted sixty seconds are dropped. */
  function Retain(t: Table, now: real): Table {
    map ip | ip in t && now - t[ip].start < WINDOW :: t[ip]
  }

  /** The entry of `ip` once a hit at `now` has been counted. */
  function Counted(t: Table, ip: string, now: real): Entry {
    var kept := Retain(t, now);
    var e := if ip in kept then kept[ip] else Entry(0, now);
    var current := if now - e.start > WINDOW then Entry(0, now) else e;
    current.(count := current.count + 1)
  }

  function After(t: Table, ip: string, now: real): Table {
    Retain(t, now)[ip := Counted(t, ip, now)]
  }

  predicate Accepts(t: Table, ip: string, now: real) {
    Counted(t, ip, now).count <= LIMIT
  }

  class Limiter {
    var hits: Table

    constructor ()
      ensures hits == map[]
    {
      hits := map[];
    }

    /** Other addresses only lose windows that are over; a hit is accepted while its window counts at most twenty. */
    method Hit(ip: string, now: real) returns (accepted: bool)
      modifies this
      ensures hits == After(old(hits), ip, now)
      ensures accepted <==> Accepts(old(hits), ip, now)
      ensures accepted <==> ip in hits && hits[ip].count <= 20
      ensures ip in hits && now - hits[ip].start < 60.0
      ensures ip in old(hits) && now - old(hits)[ip].start < 60.0 ==>
                hits[ip] == Entry(old(hits)[ip].count + 1, old(hits)[ip].start)
      ensures ip !in old(hits) || now - old(hits)[ip].start >= 60.0 ==> hits[ip] == Entry(1, now)
      ensures forall other :: other != ip ==>
                (other in hits <==> other in old(hits) && now - old(hits)[other].start < 60.0)
                && (other in hits ==> hits[other] == old(hits)[other])
    {
      var kept := Retain(hits, now);
      var entry := if ip in kept then kept[ip] else Entry(0, now);
      if now - entry.start > WINDOW {
        entry := Entry(0, now);
      }
      entry := entry.(count := entry.count + 1);
      hits := kept[ip := entry];
      accepted := entry.count <= LIMIT;
    }
  }

  // ----------------------------------------------------------------------------- whole sequences

  datatype Join = Join(ip: string, now: real)

  predicate Ordered(joins: seq<Join>) {
    forall i, j :: 0 <= i < j < |joins| ==> joins[i].now <= joins[j].now
  }

  /** The table after the first `k` joins. */
  function TableAt(joins: seq<Join>, k: nat): Table
    requires k <= |joins|
  {
    if k == 0 then map[] else After(TableAt(joins, k - 1), joins[k - 1].ip, joins[k - 1].now)
  }

  predicate Accepted(joins: seq<Join>, k: nat)
    requires k < |joins|
  {
    Accepts(TableAt(joins, k), joins[k].ip, joins[k].now)
  }

  /** How many joins of `ip` among those numbered `lo` to `hi - 1` were accepted. */
  function AcceptedCount(joins: seq<Join>, ip: string, lo: nat, hi: nat): nat
    requires lo <= hi <= |joins|
    decreases hi
  {
    if lo == hi then 0
    else AcceptedCount(joins, ip, lo, hi - 1) + if joins[hi - 1].ip == ip && Accepted(joins, hi - 1) then 1 else 0
  }

  lemma {:induction false} CountSplits(joins: seq<Join>, ip: string, lo: nat, mid: nat, hi: nat)
    requires lo <= mid <= hi <= |joins|
    ensures AcceptedCount(joins, ip, lo, hi) == AcceptedCount(joins, ip, lo, mid) + AcceptedCount(joins, ip, mid, hi)
    decreases hi
  {
    if mid < hi {
      CountSplits(joins, ip, lo, mid, hi - 1);
    }
  }

  /** Join number `w` opened the window that the table shows for `ip` after `k` joins. */
  ghost predicate WindowFrom(joins: seq<Join>, ip: string, w: nat, k: nat)
    requires k <= |joins|
  {
    && w < k && joins[w].ip == ip
    && ip in TableAt(joins, k)
    && TableAt(joins, k)[ip].start == joins[w].now
    && 1 <= TableAt(joins, k)[ip].count
    && AcceptedCount(joins, ip, w, k) == (if TableAt(joins, k)[ip].count <= LIMIT then TableAt(joins, k)[ip].count else LIMIT)
  }

  /** From the join that opens it, a window accepts at most twenty until the first join sixty seconds later. */
  lemma {:induction false} WindowBound(joins: seq<Join>, ip: string, w: nat, k: nat)
    requires Ordered(joins) && w < k <= |joins| && joins[w].ip == ip
    requires ip !in Retain(TableAt(joins, w), joins[w].now)
    requires joins[k - 1].now < joins[w].now + WINDOW
    ensures WindowFrom(joins, ip, w, k)
    decreases k
  {
    if k > w + 1 {
      assert joins[k - 2].now <= joins[k - 1].now;
      WindowBound(joins, ip, w, k - 1);
    } else {
      assert AcceptedCount(joins, ip, w, w) == 0;
    }
  }

  /** After `k` joins the table shows a live window of `ip` only if some join `w` opened it. */
  lemma {:induction false} FindWindow(joins: seq<Join>, ip: string, k: nat) returns (w: nat)
    requires Ordered(joins) && k <= |joins| && ip in TableAt(joins, k)
    ensures w < k && joins[w].ip == ip && ip !in Retain(TableAt(joins, w), joins[w].now)
    ensures TableAt(joins, k)[ip].start == joins[w].now
    decreases k
  {
    var j := joins[k - 1];
    if j.ip == ip && ip !in Retain(TableAt(joins, k - 1), j.now) {
      w := k - 1;
    } else {
      w := FindWindow(joins, ip, k - 1);
    }
  }

  /** A stretch of joins that fits in sixty seconds after the opening of its first window. */
  lemma {:induction false} StretchBound(joins: seq<Join>, ip: string, lo: nat, hi: nat)
    requires Ordered(joins) && lo <= hi <= |joins|
    requires ip in TableAt(joins, lo) ==> forall k :: lo <= k < hi ==> joins[k].now >= TableAt(joins, lo)[ip].start + WINDOW
    requires lo < hi ==> joins[hi - 1].now < joins[lo].now + WINDOW
    ensures AcceptedCount(joins, ip, lo, hi) <= LIMIT
    decreases hi - lo
  {
    if lo < hi {
      if joins[lo].ip == ip {
        WindowBound(joins, ip, lo, hi);
      } else {
        assert joins[lo].now <= joins[hi - 1].now;
        if ip in TableAt(joins, lo + 1) {
          NextTable(joins, ip, lo);
        }
        if lo + 1 < hi {
          assert joins[lo].now <= joins[lo + 1].now;
        }
        StretchBound(joins, ip, lo + 1, hi);
        CountSplits(joins, ip, lo, lo + 1, hi);
        assert AcceptedCount(joins, ip, lo, lo) == 0;
      }
    }
  }

  lemma NextTable(joins: seq<Join>, ip: string, k: nat)
    requires k < |joins| && joins[k].ip != ip && ip in TableAt(joins, k + 1)
    ensures ip in TableAt(joins, k) && TableAt(joins, k + 1)[ip] == TableAt(joins, k)[ip]
  {
  }

  /** The first join from `lo` on that comes at `time` or later. */
  lemma {:induction false} FirstFrom(joins: seq<Join>, lo: nat, hi: nat, time: real) returns (mid: nat)
    requires Ordered(joins) && lo <= hi <= |joins|
    ensures lo <= mid <= hi
    ensures forall k :: lo <= k < mid ==> joins[k].now < time
    ensures forall k :: mid <= k < hi ==> joins[k].now >= time
    decreases hi - lo
  {
    if lo == hi || joins[lo].now >= time {
      mid := lo;
    } else {
      mid := FirstFrom(joins, lo + 1, hi, time);
    }
  }

  /** In any half-open span of sixty seconds one address gets at most 39 joins accepted. */
  lemma SpanBound(joins: seq<Join>, ip: string, lo: nat, hi: nat)
    requires Ordered(joins) && lo < hi <= |joins|
    requires joins[hi - 1].now < joins[lo].now + 60.0
    ensures AcceptedCount(joins, ip, lo, hi) <= 39
  {
    if ip in TableAt(joins, lo) {
      var w := FindWindow(joins, ip, lo);
      var mid := FirstFrom(joins, lo, hi, joins[w].now + WINDOW);
      if lo < mid {
        WindowBound(joins, ip, w, mid);
        WindowBound(joins, ip, w, w + 1);
        CountSplits(joins, ip, w, w + 1, mid);
        CountSplits(joins, ip, w + 1, lo, mid);
        assert AcceptedCount(joins, ip, w, w) == 0;
        assert AcceptedCount(joins, ip, w, w + 1) == 1;
      } else {
        assert AcceptedCount(joins, ip, lo, lo) == 0;
      }
      if mid < hi {
        assert joins[lo].now <= joins[mid].now;
        StretchBound(joins, ip, mid, hi);
      } else {
        assert AcceptedCount(joins, ip, hi, hi) == 0;
      }
      CountSplits(joins, ip, lo, mid, hi);
    } else {
      StretchBound(joins, ip, lo, hi);
    }
  }

  /** One join, nineteen more at the end of its window, then twenty as the next window opens. */
  function Burst(ip: string): seq<Join> {
    seq(40, k => Join(ip, if k == 0 then 0.0 else if k < 20 then 59.9 else 60.0))
  }

  lemma {:induction false} BurstCounts(ip: string, k: nat)
    requires 1 <= k <= 40
    ensures ip in TableAt(Burst(ip), k)
    ensures TableAt(Burst(ip), k)[ip] == if k <= 20 then Entry(k, 0.0) else Entry(k - 20, 60.0)
    ensures AcceptedCount(Burst(ip), ip, 1, k) == k - 1
    decreases k
  {
    if k > 1 {
      BurstCounts(ip, k - 1);
      assert Accepted(Burst(ip), k - 1);
    }
  }

  /** The bound is attained: 39 joins of one address can be accepted within a tenth of a second. */
  lemma SpanBoundIsTight(ip: string)
    ensures Ordered(Burst(ip)) && Burst(ip)[39].now < Burst(ip)[1].now + 60.0
    ensures AcceptedCount(Burst(ip), ip, 1, 40) == 39
  {
    BurstCounts(ip, 40);
  }
}
