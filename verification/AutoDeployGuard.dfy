/** The gate of automatic deployments: never the same failed commit, and an exponential wait after failures. */
module AutoDeployGuard {
  import opened Text

  /** Times are instants, in seconds. */
  const MINUTE: real := 60.0
  const HISTORY: nat := 20

  datatype Status = Success | Ready | Failed | Error | Queued | Running | Building | Pending | Deploying | Cancelled

  datatype Attempt = Attempt(sha: Option<string>, status: Status, createdAt: real)

  datatype Gate = Go | SameShaFailed(sha: string) | Backoff(until: real, failures: nat)

  predicate Succeeded(a: Attempt) {
    a.status.Success? || a.status.Ready?
  }

  predicate HasFailed(a: Attempt) {
    a.status.Failed? || a.status.Error?
  }

  predicate Active(a: Attempt) {
    a.status.Queued? || a.status.Running? || a.status.Building? || a.status.Pending? || a.status.Deploying?
  }

  // ----------------------------------------------------------------------------------- commits

  predicate IsHex(c: char) {
    '0' <= c <= '9' || 'a' <= c <= 'f' || 'A' <= c <= 'F'
  }

  /** Hexadecimal characters are one byte each, so the length in bytes is the number of characters. */
  predicate Usable(sha: string) {
    var s := Trim(sha);
    |s| >= 7 && forall i :: 0 <= i < |s| ==> IsHex(s[i])
  }

  /** Equal if one is a prefix of the other, case aside. */
  predicate SameSha(a: string, b: string) {
    var x, y := Lower(Trim(a)), Lower(Trim(b));
    Usable(x) && Usable(y) && (y <= x || x <= y)
  }

  /** A commit counts if, without the spaces around it, it has seven characters or more, all hexadecimal. */
  lemma UsableIff(left: string, s: string, right: string)
    requires AllSpaces(left) && AllSpaces(right) && Bare(s)
    ensures Usable(left + s + right) <==> |s| >= 7 && forall i :: 0 <= i < |s| ==> s[i] in "0123456789abcdefABCDEF"
  {
    TrimIs(left, s, right);
    forall i | 0 <= i < |s|
      ensures IsHex(s[i]) <==> s[i] in "0123456789abcdefABCDEF"
    {
      HexListed(s[i]);
    }
  }

  lemma HexListed(c: char)
    ensures IsHex(c) <==> c in "0123456789abcdefABCDEF"
  {
    var all := "0123456789abcdefABCDEF";
    if IsHex(c) {
      var k := if c <= '9' then c as int - '0' as int else if c <= 'F' then c as int - 'A' as int + 16 else c as int - 'a' as int + 10;
      assert c == all[k];
    }
  }

  lemma {:induction false} LowerPrefix(s: string, c: char)
    ensures Lower(s + [c]) == Lower(s) + [LowerChar(c)]
  {
  }

  predicate AllHex(s: string) {
    forall i :: 0 <= i < |s| ==> IsHex(s[i])
  }

  /** On hexadecimal text of seven characters or more, matching is just having one lower-case form begin the other. */
  lemma SameShaOnHex(a: string, b: string)
    requires AllHex(a) && AllHex(b) && |a| >= 7 && |b| >= 7
    ensures SameSha(a, b) <==> Lower(a) <= Lower(b) || Lower(b) <= Lower(a)
  {
    HexTrimmed(a);
    HexTrimmed(b);
    LowerHex(a);
    LowerHex(b);
  }

  lemma HexTrimmed(s: string)
    requires AllHex(s)
    ensures Trim(s) == s
  {
  }

  lemma LowerHex(s: string)
    requires AllHex(s) && |s| >= 7
    ensures AllHex(Lower(s)) && Trim(Lower(s)) == Lower(s) && Usable(Lower(s))
  {
    HexTrimmed(Lower(s));
  }

  /** Any usable short commit matches two longer ones that do not match each other. */
  lemma SameShaNotTransitive(p: string, x: char, y: char)
    requires |p| >= 7 && AllHex(p + [x]) && AllHex(p + [y]) && LowerChar(x) != LowerChar(y)
    ensures SameSha(p + [x], p) && SameSha(p, p + [y]) && !SameSha(p + [x], p + [y])
  {
    assert AllHex(p) by {
      assert forall i :: 0 <= i < |p| ==> p[i] == (p + [x])[i];
    }
    SameShaOnHex(p + [x], p);
    SameShaOnHex(p, p + [y]);
    SameShaOnHex(p + [x], p + [y]);
    LowerPrefix(p, x);
    LowerPrefix(p, y);
    assert Lower(p + [x])[|p|] == LowerChar(x) && Lower(p + [y])[|p|] == LowerChar(y);
  }

  // ----------------------------------------------------------------------------------- backoff

  function Pow2(n: nat): (r: nat)
    ensures r >= 1
  {
    if n == 0 then 1 else 2 * Pow2(n - 1)
  }

  function CappedPow2(n: nat): nat {
    if Pow2(n) <= 60 then Pow2(n) else 60
  }

  /** `(2 << min(failures - 1, 10)).min(60)` minutes. */
  function BackoffFor(failures: nat): real {
    if failures == 0 then 0.0
    else
      var exp := if failures - 1 <= 10 then failures - 1 else 10;
      var minutes := 2 * Pow2(exp);
      (if minutes <= 60 then minutes else 60) as real * MINUTE
  }

  lemma {:induction false} Pow2Grows(m: nat, n: nat)
    requires m <= n
    ensures Pow2(m) <= Pow2(n)
    ensures m < n ==> Pow2(m) < Pow2(n)
    decreases n
  {
    if m < n {
      Pow2Grows(m, n - 1);
    }
  }

  lemma Pow2Six()
    ensures Pow2(1) == 2 && Pow2(2) == 4 && Pow2(3) == 8 && Pow2(4) == 16 && Pow2(5) == 32 && Pow2(6) == 64
  {
  }

  /** After k failures in a row the wait is 2^k minutes, an hour at most: it stops growing at the sixth. */
  lemma BackoffIsCappedPower(k: nat)
    requires k >= 1
    ensures BackoffFor(k) == CappedPow2(k) as real * 60.0
    ensures BackoffFor(k) == 3600.0 <==> k >= 6
  {
    Pow2Six();
    if k >= 6 {
      Pow2Grows(6, k);
      if k <= 11 {
        assert Pow2(k) == 2 * Pow2(k - 1);
      } else {
        Pow2Grows(6, 11);
        assert Pow2(11) == 2 * Pow2(10);
      }
    } else {
      assert Pow2(k) == 2 * Pow2(k - 1);
      Pow2Grows(k, 5);
    }
  }

  lemma BackoffStrict(m: nat, n: nat)
    requires 1 <= m < n
    ensures BackoffFor(m) <= BackoffFor(n)
    ensures BackoffFor(m) == BackoffFor(n) <==> m >= 6
  {
    BackoffIsCappedPower(m);
    BackoffIsCappedPower(n);
    Pow2Grows(m, n);
    Pow2Six();
    if m < 6 {
      Pow2Grows(m, 5);
    }
  }

  // ---------------------------------------------------------------------------------- the rule

  /** The attempts since the newest success; the history runs from newest to oldest. */
  function SinceSuccess(history: seq<Attempt>): seq<Attempt> {
    if history == [] || Succeeded(history[0]) then [] else [history[0]] + SinceSuccess(history[1..])
  }

  function FailedOf(attempts: seq<Attempt>): seq<Attempt> {
    if attempts == [] then []
    else (if HasFailed(attempts[0]) then [attempts[0]] else []) + FailedOf(attempts[1..])
  }

  function Failures(history: seq<Attempt>): seq<Attempt> {
    FailedOf(SinceSuccess(history))
  }

  predicate Matches(a: Attempt, tip: string) {
    a.sha.Some? && SameSha(a.sha.value, tip)
  }

  function Short(tip: string): string {
    if |tip| <= 7 then tip else tip[..7]
  }

  /** Until when the failures alone make one wait. */
  function WaitUntil(history: seq<Attempt>): Option<real> {
    var f := Failures(history);
    if f == [] then None else Some(f[0].createdAt + BackoffFor(|f|))
  }

  /** The rule: a commit that failed since the newest success is blocked; else wait from the newest failure; else go. */
  function Rule(tip: string, history: seq<Attempt>, now: real): Gate {
    var f := Failures(history);
    if exists a :: a in f && Matches(a, tip) then SameShaFailed(Short(tip))
    else
      match WaitUntil(history)
      case Some(until) => if now < until then Backoff(until, |f|) else Go
      case None => Go
  }

  lemma {:induction false} SinceSuccessSplit(before: seq<Attempt>, rest: seq<Attempt>)
    requires forall a :: a in before ==> !Succeeded(a)
    ensures SinceSuccess(before + rest) == before + SinceSuccess(rest)
  {
    if before == [] {
      assert before + rest == rest;
    } else {
      assert (before + rest)[0] == before[0] && (before + rest)[1..] == before[1..] + rest;
      SinceSuccessSplit(before[1..], rest);
    }
  }

  lemma FailedCons(x: Attempt, rest: seq<Attempt>)
    ensures FailedOf([x] + rest) == (if HasFailed(x) then [x] else []) + FailedOf(rest)
  {
    assert ([x] + rest)[1..] == rest;
  }

  lemma {:induction false} FailedConcat(a: seq<Attempt>, b: seq<Attempt>)
    ensures FailedOf(a + b) == FailedOf(a) + FailedOf(b)
  {
    if a == [] {
      assert a + b == b;
    } else {
      assert a + b == [a[0]] + (a[1..] + b);
      FailedCons(a[0], a[1..] + b);
      FailedConcat(a[1..], b);
    }
  }

  lemma {:induction false} SinceSuccessStops(before: seq<Attempt>, rest: seq<Attempt>)
    requires exists a :: a in before && Succeeded(a)
    ensures SinceSuccess(before + rest) == SinceSuccess(before)
  {
    assert (before + rest)[0] == before[0] && (before + rest)[1..] == before[1..] + rest;
    if !Succeeded(before[0]) {
      SinceSuccessStops(before[1..], rest);
    }
  }

  lemma FailuresSnoc(front: seq<Attempt>, a: Attempt)
    ensures Failures(front + [a]) ==
            Failures(front) + if (forall x :: x in front ==> !Succeeded(x)) && HasFailed(a) then [a] else []
  {
    if forall x :: x in front ==> !Succeeded(x) {
      SinceSuccessSplit(front, [a]);
      SinceSuccessSplit(front, []);
      assert front + [] == front;
      assert SinceSuccess([a]) == if Succeeded(a) then [] else [a];
      FailedConcat(front, SinceSuccess([a]));
      assert FailedOf([a]) == if HasFailed(a) then [a] else [];
    } else {
      SinceSuccessStops(front, [a]);
    }
  }

  /** The places of the attempts that failed with no success among the newer ones. */
  function Unsettled(history: seq<Attempt>): set<nat> {
    set p: nat | p < |history| && history[p].status in {Failed, Error}
                 && forall q :: 0 <= q < p ==> history[q].status !in {Success, Ready}
  }

  /** The newest of them. */
  predicate Newest(history: seq<Attempt>, p: nat) {
    p in Unsettled(history) && forall q :: q in Unsettled(history) ==> p <= q
  }

  lemma UnsettledSnoc(front: seq<Attempt>, a: Attempt)
    ensures Unsettled(front + [a]) ==
            Unsettled(front) + if (forall x :: x in front ==> !Succeeded(x)) && HasFailed(a) then {|front|} else {}
    ensures |front| !in Unsettled(front)
  {
    var all := front + [a];
    assert forall p :: 0 <= p < |front| ==> all[p] == front[p] && front[p] in front;
  }

  lemma NewestStays(front: seq<Attempt>, a: Attempt, p: nat)
    requires Newest(front, p)
    ensures Newest(front + [a], p) && (front + [a])[p] == front[p]
  {
    UnsettledSnoc(front, a);
  }

  lemma UnsettledFailed(history: seq<Attempt>, p: nat)
    requires p in Unsettled(history)
    ensures history[p] in Failures(history)
  {
    var front, rest := history[..p], history[p..];
    assert history == front + rest && rest[0] == history[p];
    assert forall x :: x in front ==> !Succeeded(x);
    SinceSuccessSplit(front, rest);
    FailedConcat(front, SinceSuccess(rest));
    assert FailedOf(SinceSuccess(rest))[0] == rest[0];
  }

  /** Every failure that counts stands at such a place. */
  lemma {:induction false} FailureStands(history: seq<Attempt>, a: Attempt) returns (p: nat)
    requires a in Failures(history)
    ensures p in Unsettled(history) && history[p] == a
  {
    var front, last := history[..|history| - 1], history[|history| - 1];
    assert history == front + [last];
    FailuresSnoc(front, last);
    UnsettledSnoc(front, last);
    if a in Failures(front) {
      p := FailureStands(front, a);
    } else {
      p := |front|;
    }
  }

  /** There are as many as such places, the first at the newest. */
  lemma {:induction false} FailuresAreUnsettled(history: seq<Attempt>)
    ensures |Failures(history)| == |Unsettled(history)|
    ensures Failures(history) != [] ==> exists p: nat :: Newest(history, p) && history[p] == Failures(history)[0]
  {
    if history != [] {
      var front, a := history[..|history| - 1], history[|history| - 1];
      assert history == front + [a];
      FailuresAreUnsettled(front);
      FailuresSnoc(front, a);
      UnsettledSnoc(front, a);
      if Failures(front) != [] {
        var p: nat :| Newest(front, p) && front[p] == Failures(front)[0];
        NewestStays(front, a, p);
      } else if Failures(history) != [] {
        assert Unsettled(front) == {};
        assert Newest(history, |front|);
      }
    }
  }

  lemma NewestExists(history: seq<Attempt>)
    requires Unsettled(history) != {}
    ensures exists p: nat :: Newest(history, p)
  {
    FailuresAreUnsettled(history);
  }

  /**
   The gate without the scan: a commit is blocked on which an unsettled attempt failed; otherwise the wait
   runs from the newest unsettled attempt, and is owed for each; without any there is none.
   */
  ghost predicate Decided(tip: string, history: seq<Attempt>, now: real, gate: Gate) {
    var open := Unsettled(history);
    && (gate.SameShaFailed? <==> exists p :: p in open && history[p].sha.Some? && SameSha(history[p].sha.value, tip))
    && (gate.SameShaFailed? ==> gate.sha == if |tip| <= 7 then tip else tip[..7])
    && (!gate.SameShaFailed? && open == {} ==> gate == Go)
    && (!gate.SameShaFailed? ==> forall p: nat :: Newest(history, p) ==> gate == Waiting(history[p].createdAt, now, |open|))
  }

  /** The wait that `n` failures owe, the newest of them begun at `last`. */
  function Waiting(last: real, now: real, n: nat): Gate {
    if now < last + BackoffFor(n) then Backoff(last + BackoffFor(n), n) else Go
  }

  lemma NewestIsFirst(history: seq<Attempt>, p: nat)
    requires Newest(history, p)
    ensures Failures(history) != [] && Failures(history)[0] == history[p]
  {
    FailuresAreUnsettled(history);
    UnsettledFailed(history, p);
    var q: nat :| Newest(history, q) && history[q] == Failures(history)[0];
    assert p == q;
  }

  lemma RuleIsDecided(tip: string, history: seq<Attempt>, now: real)
    ensures Decided(tip, history, now, Rule(tip, history, now))
  {
    FailuresAreUnsettled(history);
    var f, gate := Failures(history), Rule(tip, history, now);
    if gate.SameShaFailed? {
      var a :| a in f && Matches(a, tip);
      var p := FailureStands(history, a);
    }
    forall p | p in Unsettled(history) && history[p].sha.Some? && SameSha(history[p].sha.value, tip)
      ensures gate.SameShaFailed?
    {
      UnsettledFailed(history, p);
    }
    forall p: nat | Newest(history, p) && !gate.SameShaFailed?
      ensures gate == Waiting(history[p].createdAt, now, |Unsettled(history)|)
    {
      NewestIsFirst(history, p);
    }
  }

  /** A success ends the story: only what is newer counts. */
  lemma SuccessSettles(tip: string, history: seq<Attempt>, p: nat, now: real)
    requires p < |history| && history[p].status in {Success, Ready}
    ensures Rule(tip, history, now) == Rule(tip, history[..p], now)
  {
    assert history == history[..p] + history[p..];
    if forall a :: a in history[..p] ==> !Succeeded(a) {
      SinceSuccessSplit(history[..p], history[p..]);
      SinceSuccessSplit(history[..p], []);
      assert history[..p] + [] == history[..p] && SinceSuccess(history[p..]) == [];
    } else {
      SinceSuccessStops(history[..p], history[p..]);
    }
  }

  /** An attempt that neither failed nor succeeded might as well not be there. */
  lemma OthersDoNotCount(tip: string, newer: seq<Attempt>, a: Attempt, older: seq<Attempt>, now: real)
    requires a.status !in {Success, Ready, Failed, Error}
    ensures Rule(tip, newer + [a] + older, now) == Rule(tip, newer + older, now)
  {
    if exists x :: x in newer && Succeeded(x) {
      assert newer + [a] + older == newer + ([a] + older);
      SinceSuccessStops(newer, [a] + older);
      SinceSuccessStops(newer, older);
    } else {
      assert newer + [a] + older == (newer + [a]) + older;
      SinceSuccessSplit(newer + [a], older);
      SinceSuccessSplit(newer, older);
      FailedConcat(newer + [a], SinceSuccess(older));
      FailedConcat(newer, SinceSuccess(older));
      FailedConcat(newer, [a]);
      assert FailedOf([a]) == [];
    }
  }

  /** What the scan knows after the attempts `seen`, none of which ended it. */
  ghost predicate Scanned(tip: string, seen: seq<Attempt>, failures: nat, last: Option<real>) {
    && (forall a :: a in seen ==> !Succeeded(a))
    && (forall a :: a in FailedOf(seen) ==> !Matches(a, tip))
    && failures == |FailedOf(seen)|
    && last == if failures == 0 then None else Some(FailedOf(seen)[0].createdAt)
  }

  lemma ScanStep(tip: string, history: seq<Attempt>, i: nat, failures: nat, last: Option<real>)
    requires i < |history| && Scanned(tip, history[..i], failures, last)
    requires !Succeeded(history[i]) && !(HasFailed(history[i]) && Matches(history[i], tip))
    ensures
      if HasFailed(history[i])
      then Scanned(tip, history[..i + 1], failures + 1, if last.None? then Some(history[i].createdAt) else last)
      else Scanned(tip, history[..i + 1], failures, last)
  {
    assert history[..i + 1] == history[..i] + [history[i]];
    FailedConcat(history[..i], [history[i]]);
    assert FailedOf([history[i]]) == if HasFailed(history[i]) then [history[i]] else [];
  }

  /** The scan ends with exactly the failures since the newest success, or on one of them. */
  lemma ScanEnds(tip: string, history: seq<Attempt>, i: nat, failures: nat, last: Option<real>)
    requires i <= |history| && Scanned(tip, history[..i], failures, last)
    ensures i == |history| || Succeeded(history[i]) ==> Failures(history) == FailedOf(history[..i])
    ensures i < |history| && HasFailed(history[i]) ==> history[i] in Failures(history)
  {
    assert history == history[..i] + history[i..];
    SinceSuccessSplit(history[..i], history[i..]);
    FailedConcat(history[..i], SinceSuccess(history[i..]));
    if i == |history| || Succeeded(history[i]) {
      assert Failures(history[i..]) == [];
    } else if HasFailed(history[i]) {
      assert Failures(history[i..])[0] == history[i];
    }
  }

  /** The loop of `decide`: it stops at a success, and at once on the same failed commit. */
  method ScanHistory(tip: string, history: seq<Attempt>) returns (blocked: bool, failures: nat, lastFailure: Option<real>)
    ensures blocked <==> exists a :: a in Failures(history) && Matches(a, tip)
    ensures !blocked ==>
              && failures == |Failures(history)|
              && lastFailure == if failures == 0 then None else Some(Failures(history)[0].createdAt)
  {
    blocked, failures, lastFailure := false, 0, None;
    var i := 0;
    while i < |history|
      invariant 0 <= i <= |history|
      invariant Scanned(tip, history[..i], failures, lastFailure)
    {
      var a := history[i];
      if Succeeded(a) {
        break;
      }
      if HasFailed(a) && Matches(a, tip) {
        ScanEnds(tip, history, i, failures, lastFailure);
        blocked := true;
        return;
      }
      ScanStep(tip, history, i, failures, lastFailure);
      if HasFailed(a) {
        failures := failures + 1;
        lastFailure := if lastFailure.None? then Some(a.createdAt) else lastFailure;
      }
      i := i + 1;
    }
    ScanEnds(tip, history, i, failures, lastFailure);
  }

  /**
   A commit is blocked on which an attempt failed or errored that no newer success or ready one settles;
   otherwise the wait runs from the newest of those attempts and is owed for each; without any there is
   none.
   */
  method Decide(tip: string, history: seq<Attempt>, now: real) returns (gate: Gate)
    ensures gate == Rule(tip, history, now)
    ensures Decided(tip, history, now, gate)
  {
    RuleIsDecided(tip, history, now);
    var blocked, failures, lastFailure := ScanHistory(tip, history);
    if blocked {
      return SameShaFailed(Short(tip));
    }
    if lastFailure.Some? {
      var until := lastFailure.value + BackoffFor(failures);
      if now < until {
        return Backoff(until, failures);
      }
    }
    gate := Go;
  }

  // -------------------------------------------------------------------------- the 20-row window

  function Window(history: seq<Attempt>): seq<Attempt> {
    if |history| <= HISTORY then history else history[..HISTORY]
  }

  lemma {:induction false} FailuresOfPrefix(history: seq<Attempt>, n: nat)
    requires n <= |history|
    ensures Failures(history[..n]) <= Failures(history)
  {
    if n > 0 && !Succeeded(history[0]) {
      assert history[..n][1..] == history[1..][..n - 1];
      FailuresOfPrefix(history[1..], n - 1);
    }
  }

  /**
   Reading only the newest rows gives the same wait as the whole history exactly when the window
   misses no failure since the newest success, or already holds six.
   */
  lemma WindowGivesSameWait(history: seq<Attempt>)
    ensures WaitUntil(Window(history)) == WaitUntil(history) <==>
              |Failures(Window(history))| == |Failures(history)| || |Failures(Window(history))| >= 6
  {
    var seen, all := Failures(Window(history)), Failures(history);
    if |history| > HISTORY {
      FailuresOfPrefix(history, HISTORY);
    }
    if 1 <= |seen| < |all| {
      BackoffStrict(|seen|, |all|);
    }
  }

  lemma {:induction false} NoneFailed(attempts: seq<Attempt>)
    requires forall a :: a in attempts ==> !HasFailed(a)
    ensures FailedOf(attempts) == []
  {
    if attempts != [] {
      NoneFailed(attempts[1..]);
    }
  }

  /** Twenty cancelled attempts hide a failure before them: the whole history says to wait, the window does not. */
  lemma WindowMissesFailure(cancelled: seq<Attempt>, failed: Attempt)
    requires |cancelled| == 20 && (forall a :: a in cancelled ==> a.status.Cancelled?) && failed.status.Failed?
    ensures WaitUntil(Window(cancelled + [failed])) == None
    ensures WaitUntil(cancelled + [failed]) == Some(failed.createdAt + BackoffFor(1))
  {
    var history := cancelled + [failed];
    assert Window(history) == cancelled && cancelled + [] == cancelled;
    NoneFailed(cancelled);
    SinceSuccessSplit(cancelled, [failed]);
    SinceSuccessSplit(cancelled, []);
    assert SinceSuccess([failed]) == [failed];
    FailedConcat(cancelled, [failed]);
    assert FailedOf([failed]) == [failed];
  }

  // -------------------------------------------------------------------------------- whole runs

  /** A poll may start a deployment: none was begun within the hour and is still active, and the gate says go. */
  predicate MayStart(history: seq<Attempt>, now: real, tip: string) {
    && (forall a :: a in history ==> !(Active(a) && a.createdAt > now - 60.0 * MINUTE))
    && Rule(tip, Window(history), now) == Go
  }

  /**
   What a start has waited for, wherever the attempts stand in the window: an hour for each one still
   active, and, for a failure that no newer success hides, never its own commit; for the newest such
   failure, two minutes at least and the wait that all of them owe.
   */
  lemma StartWaits(history: seq<Attempt>, now: real, tip: string, p: nat)
    requires MayStart(history, now, tip) && p < |history| && p < 20
    ensures
      var a, newer := history[p], history[..p];
      && (a.status in {Queued, Running, Building, Pending, Deploying} ==> now >= a.createdAt + 3600.0)
      && (a.status in {Failed, Error} && (forall x :: x in newer ==> x.status !in {Success, Ready}) ==>
            && a in Failures(Window(history)) && (a.sha.None? || !SameSha(a.sha.value, tip))
            && ((forall x :: x in newer ==> x.status !in {Failed, Error}) ==>
                  now >= a.createdAt + BackoffFor(|Failures(Window(history))|) >= a.createdAt + 120.0))
  {
    var w := Window(history);
    var a, newer := history[p], history[..p];
    assert w[p] == a && a in history;
    MayStartIff(history, now, tip);
    if a.status in {Failed, Error} && forall x :: x in newer ==> x.status !in {Success, Ready} {
      assert forall q :: 0 <= q < p ==> w[q] == newer[q] && newer[q] in newer;
      assert p in Unsettled(w);
      UnsettledFailed(w, p);
      if forall x :: x in newer ==> x.status !in {Failed, Error} {
        NewestWaits(history, now, tip, p);
      }
    }
  }

  lemma NewestWaits(history: seq<Attempt>, now: real, tip: string, p: nat)
    requires MayStart(history, now, tip) && p < |Window(history)| && p in Unsettled(Window(history))
    requires forall q :: 0 <= q < p ==> Window(history)[q].status !in {Failed, Error}
    ensures now >= Window(history)[p].createdAt + BackoffFor(|Failures(Window(history))|)
    ensures BackoffFor(|Failures(Window(history))|) >= 120.0
  {
    var w := Window(history);
    MayStartIff(history, now, tip);
    assert Newest(w, p);
    FailuresAreUnsettled(w);
    UnsettledFailed(w, p);
    WaitsTwoMinutes(|Failures(w)|);
  }

  lemma WaitsTwoMinutes(n: nat)
    requires n >= 1
    ensures BackoffFor(n) >= 120.0
  {
    BackoffIsCappedPower(n);
    Pow2Grows(1, n);
    Pow2Six();
  }

  /**
   A poll may start exactly when every active attempt is an hour old and, of the newest twenty, no unsettled one
   failed on this commit and the newest unsettled one lies as far back as they all owe.
   */
  lemma MayStartIff(history: seq<Attempt>, now: real, tip: string)
    ensures
      var w := if |history| <= 20 then history else history[..20];
      MayStart(history, now, tip) <==>
        && (forall a :: a in history && a.status in {Queued, Running, Building, Pending, Deploying} ==> now >= a.createdAt + 3600.0)
        && (forall p :: p in Unsettled(w) ==> w[p].sha.None? || !SameSha(w[p].sha.value, tip))
        && (forall p: nat :: Newest(w, p) ==> now >= w[p].createdAt + BackoffFor(|Unsettled(w)|))
  {
    var w := if |history| <= 20 then history else history[..20];
    assert w == Window(history);
    RuleIsDecided(tip, w, now);
    if Unsettled(w) != {} {
      NewestExists(w);
    }
  }

  datatype Event = Start(now: real, tip: string) | Fail(index: nat)

  function Next(history: seq<Attempt>, e: Event): seq<Attempt> {
    match e
    case Start(now, tip) => [Attempt(Some(tip), Queued, now)] + history
    case Fail(i) => if i < |history| then history[i := history[i].(status := Failed)] else history
  }

  predicate AllFailed(history: seq<Attempt>) {
    forall a :: a in history ==> HasFailed(a)
  }

  /** The poller is the only starter, every attempt fails, and each has failed before the next begins. */
  predicate Serial(events: seq<Event>) {
    forall k :: 0 <= k < |events| && events[k].Start? ==>
      AllFailed(Reached(events[..k])) && MayStart(Reached(events[..k]), events[k].now, events[k].tip)
  }

  function Reached(events: seq<Event>): seq<Attempt> {
    if events == [] then [] else Next(Reached(events[..|events| - 1]), events[|events| - 1])
  }

  lemma {:induction false} AllFailedCount(history: seq<Attempt>)
    requires AllFailed(history)
    ensures Failures(history) == history
  {
    if history != [] {
      assert history[0] in history;
      AllFailedCount(history[1..]);
    }
  }

  lemma NextAttemptWaits(history: seq<Attempt>, now: real, tip: string)
    requires history != [] && AllFailed(history) && MayStart(history, now, tip)
    ensures now >= history[0].createdAt + CappedPow2(|history|) as real * MINUTE
  {
    assert history[0] in history;
    StartWaits(history, now, tip, 0);
    assert Window(history)[0] == history[0] && Window(history)[..0] == [];
    AllFailedCount(Window(history));
    BackoffIsCappedPower(|history|);
    if |history| > HISTORY {
      BackoffIsCappedPower(HISTORY);
    }
  }

  lemma SerialPrefix(events: seq<Event>, n: nat)
    requires Serial(events) && n <= |events|
    ensures Serial(events[..n])
  {
    assert forall j :: 0 <= j < n ==> events[..n][..j] == events[..j];
  }

  /** When the k-th attempt of the run was started; the first is the last of the history. */
  function StartTime(history: seq<Attempt>, k: nat): real
    requires 1 <= k <= |history|
  {
    history[|history| - k].createdAt
  }

  lemma NextKeepsStartTimes(history: seq<Attempt>, e: Event, k: nat)
    requires 1 <= k <= |history|
    ensures |Next(history, e)| >= |history| && StartTime(Next(history, e), k) == StartTime(history, k)
  {
  }

  lemma NewAttemptSpread(before: seq<Attempt>, e: Event)
    requires before != [] && e.Start? && AllFailed(before) && MayStart(before, e.now, e.tip)
    ensures StartTime(Next(before, e), |before| + 1) >=
            StartTime(before, |before|) + CappedPow2(|before|) as real * MINUTE
  {
    NextAttemptWaits(before, e.now, e.tip);
  }

  /** Over a whole run, attempt k+1 starts at least min(2^k, 60) minutes after attempt k. */
  lemma {:induction false} AttemptsSpread(events: seq<Event>, k: nat)
    requires Serial(events) && 1 <= k < |Reached(events)|
    ensures StartTime(Reached(events), k + 1) >=
            StartTime(Reached(events), k) + CappedPow2(k) as real * MINUTE
    decreases |events|
  {
    var n := |events| - 1;
    var before, e := Reached(events[..n]), events[n];
    NextKeepsStartTimes(before, e, k);
    if k < |before| {
      NextKeepsStartTimes(before, e, k + 1);
      SerialPrefix(events, n);
      AttemptsSpread(events[..n], k);
    } else {
      NewAttemptSpread(before, e);
    }
  }
}
