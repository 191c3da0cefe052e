/** The in-process match metrics: a bounded window of recent attempts beside lifetime counters. */
module Metrics {
  import opened Percentiles

  datatype Outcome = Matched | Unmatched | Error
  datatype MatchAttempt = MatchAttempt(outcome: Outcome, latency: real, at: real)
  datatype Snapshot = Snapshot(failedMatches: nat, lockContention: nat, throughput: nat,
                               p50: real, p95: real, p99: real)

  const THROUGHPUT_WINDOW_SECONDS := 60.0

  function Last<T>(s: seq<T>, n: nat): seq<T> { if |s| <= n then s else s[|s| - n..] }

  function Evicted<T>(s: seq<T>, n: nat): seq<T> { if |s| <= n then [] else s[..|s| - n] }

  predicate Trailing(a: MatchAttempt, now: real) { a.outcome == Matched && now - a.at <= THROUGHPUT_WINDOW_SECONDS }

  function TrailingMatches(s: seq<MatchAttempt>, now: real): nat {
    if s == [] then 0 else (if Trailing(s[0], now) then 1 else 0) + TrailingMatches(s[1..], now)
  }

  function Failures(s: seq<MatchAttempt>): nat {
    if s == [] then 0 else Failures(s[..|s| - 1]) + (if s[|s| - 1].outcome == Unmatched then 1 else 0)
  }

  lemma {:induction false} FailuresCount(s: seq<MatchAttempt>)
    ensures Failures(s) == |set i | 0 <= i < |s| && s[i].outcome == Unmatched|
  {
    var all := set i | 0 <= i < |s| && s[i].outcome == Unmatched;
    if s != [] {
      var k := |s| - 1;
      FailuresCount(s[..k]);
      var front := set i | 0 <= i < |s[..k]| && s[..k][i].outcome == Unmatched;
      assert all == front + if s[k].outcome == Unmatched then {k} else {};
    }
  }

  function InsertAscending(s: seq<real>, x: real): (r: seq<real>)
    requires Ascending(s)
    ensures Ascending(r) && |r| == |s| + 1
    ensures r[0] == if s == [] || x <= s[0] then x else s[0]
  {
    if s == [] || x <= s[0] then [x] + s else [s[0]] + InsertAscending(s[1..], x)
  }

  lemma {:induction false} InsertAdds(s: seq<real>, x: real)
    requires Ascending(s)
    ensures multiset(InsertAscending(s, x)) == multiset(s) + multiset{x}
  {
    if s != [] && x > s[0] {
      InsertAdds(s[1..], x);
      assert s == [s[0]] + s[1..];
    }
  }

  /** `sorted` of the latencies in milliseconds. */
  function SortedLatencies(s: seq<MatchAttempt>): (r: seq<real>)
    ensures Ascending(r) && |r| == |s|
  {
    if s == [] then [] else InsertAscending(SortedLatencies(s[1..]), s[0].latency * 1000.0)
  }

  /** The window's latencies in milliseconds, unsorted. */
  function Latencies(s: seq<MatchAttempt>): multiset<real> {
    if s == [] then multiset{} else Latencies(s[1..]) + multiset{s[0].latency * 1000.0}
  }

  /** The sort loses and invents nothing. */
  lemma {:induction false} SortKeepsLatencies(s: seq<MatchAttempt>)
    ensures multiset(SortedLatencies(s)) == Latencies(s)
  {
    if s != [] {
      var rest, x := SortedLatencies(s[1..]), s[0].latency * 1000.0;
      SortKeepsLatencies(s[1..]);
      InsertAdds(rest, x);
      hide InsertAscending, Ascending;
      assert SortedLatencies(s) == InsertAscending(rest, x);
    }
  }

  lemma {:induction false} TrailingSplits(s: seq<MatchAttempt>, t: seq<MatchAttempt>, now: real)
    ensures TrailingMatches(s + t, now) == TrailingMatches(s, now) + TrailingMatches(t, now)
  {
    if s == [] { assert s + t == t; }
    else {
      TrailingSplits(s[1..], t, now);
      assert (s + t)[1..] == s[1..] + t;
    }
  }

  /** Counting one by one agrees with the set of positions that qualify. */
  lemma {:induction false} TrailingCounts(s: seq<MatchAttempt>, now: real)
    ensures TrailingMatches(s, now) == |set i | 0 <= i < |s| && s[i].outcome == Matched && now - s[i].at <= 60.0|
  {
    var all := set i | 0 <= i < |s| && s[i].outcome == Matched && now - s[i].at <= 60.0;
    if s != [] {
      var k := |s| - 1;
      TrailingCounts(s[..k], now);
      TrailingSplits(s[..k], [s[k]], now);
      assert s == s[..k] + [s[k]];
      var front := set i | 0 <= i < |s[..k]| && s[..k][i].outcome == Matched && now - s[..k][i].at <= 60.0;
      assert all == front + if Trailing(s[k], now) then {k} else {};
    }
  }

  lemma {:induction false} NoneTrailing(s: seq<MatchAttempt>, now: real)
    ensures TrailingMatches(s, now) == 0 <==> forall i :: 0 <= i < |s| ==> !Trailing(s[i], now)
  {
    if s != [] {
      NoneTrailing(s[1..], now);
      assert forall i :: 0 < i < |s| ==> s[i] == s[1..][i - 1];
    }
  }

  /** Throughput over the window never exceeds the true count of the trailing minute, and equals it
      exactly when no attempt that still counts has been pushed out of the window. */
  lemma ThroughputExact(history: seq<MatchAttempt>, size: nat, now: real)
    ensures TrailingMatches(Last(history, size), now) <= TrailingMatches(history, now)
    ensures TrailingMatches(Last(history, size), now) == TrailingMatches(history, now)
       <==> forall i :: 0 <= i < |Evicted(history, size)| ==> !Trailing(history[i], now)
  {
    assert history == Evicted(history, size) + Last(history, size);
    TrailingSplits(Evicted(history, size), Last(history, size), now);
    NoneTrailing(Evicted(history, size), now);
  }

  /** Attempts are recorded in the order of their times. */
  predicate InOrder(s: seq<MatchAttempt>) { forall i, j :: 0 <= i < j < |s| ==> s[i].at <= s[j].at }

  /** The window has room left, or its oldest attempt no longer counts. */
  predicate ReachesBack(recent: seq<MatchAttempt>, size: nat, now: real) {
    |recent| < size || (recent != [] && now - recent[0].at > THROUGHPUT_WINDOW_SECONDS)
  }

  /** What a reader of the window alone can rely on: a window that reaches back a minute counts exactly. */
  lemma WindowTellsExactness(history: seq<MatchAttempt>, size: nat, now: real)
    requires InOrder(history) && ReachesBack(Last(history, size), size, now)
    ensures TrailingMatches(Last(history, size), now) == TrailingMatches(history, now)
  {
    ThroughputExact(history, size, now);
    var out := |Evicted(history, size)|;
    if out > 0 { assert Last(history, size)[0] == history[out]; }
  }

  lemma {:induction false} AllTrailing(s: seq<MatchAttempt>, now: real)
    requires forall i :: 0 <= i < |s| ==> Trailing(s[i], now)
    ensures TrailingMatches(s, now) == |s|
  {
    if s != [] { AllTrailing(s[1..], now); }
  }

  /** "An exact count of successful matches in the trailing 60 seconds" fails for every size of the window,
      once one match more than it holds happens in a minute. */
  lemma FullWindowUndercounts(size: nat, now: real) returns (history: seq<MatchAttempt>)
    ensures TrailingMatches(Last(history, size), now) == size && TrailingMatches(history, now) == size + 1
  {
    history := seq(size + 1, _ => MatchAttempt(Matched, 0.01, now));
    AllTrailing(history, now);
    AllTrailing(Last(history, size), now);
  }

  class MetricsTracker {
    const size: nat
    var recent: seq<MatchAttempt>
    var failed: nat
    var contended: nat
    ghost var history: seq<MatchAttempt>
    ghost var losses: nat

    /** The deque and the counters against everything ever recorded. */
    ghost predicate Valid() reads this {
      recent == Last(history, size) && failed == Failures(history) && contended == losses
    }

    constructor (size: nat)
      ensures Valid() && this.size == size && history == [] && losses == 0
    {
      this.size := size;
      recent, failed, contended := [], 0, 0;
      history, losses := [], 0;
    }

    method Record(outcome: Outcome, latency: real, now: real)
      requires Valid()
      modifies this
      ensures Valid() && history == old(history) + [MatchAttempt(outcome, latency, now)] && losses == old(losses)
    {
      var attempt := MatchAttempt(outcome, latency, now);
      recent := recent + [attempt];
      if |recent| > size { recent := recent[1..]; }
      if outcome == Unmatched { failed := failed + 1; }
      history := history + [attempt];
      assert history[..|history| - 1] == old(history);
    }

    method RecordLockContention()
      requires Valid()
      modifies this
      ensures Valid() && losses == old(losses) + 1 && history == old(history)
    {
      contended := contended + 1;
      losses := losses + 1;
    }

    method TakeSnapshot(now: real) returns (s: Snapshot)
      requires Valid()
      ensures s.failedMatches == |set i | 0 <= i < |history| && history[i].outcome == Unmatched|
      ensures s.lockContention == losses
      ensures s.throughput == |set i | 0 <= i < |recent| && recent[i].outcome == Matched && now - recent[i].at <= 60.0|
      ensures s.throughput <= TrailingMatches(history, now)
      ensures s.throughput == TrailingMatches(history, now)
         <==> forall i :: 0 <= i < |Evicted(history, size)| ==> !Trailing(history[i], now)
      ensures InOrder(history) && ReachesBack(recent, size, now) ==> s.throughput == TrailingMatches(history, now)
      ensures var l := SortedLatencies(Last(history, size));
        s.p50 == Percentile(l, 50.0) && s.p95 == Percentile(l, 95.0) && s.p99 == Percentile(l, 99.0)
      ensures s.p50 <= s.p95 <= s.p99
      ensures history != [] && size > 0 ==>
        var l := SortedLatencies(Last(history, size)); l != [] && l[0] <= s.p50 && s.p99 <= l[|l| - 1]
      ensures history == [] ==> s.p50 == s.p95 == s.p99 == 0.0
    {
      var throughput := TrailingMatches(recent, now);
      var latencies := SortedLatencies(recent);
      s := Snapshot(failed, contended, throughput,
                    Percentile(latencies, 50.0), Percentile(latencies, 95.0), Percentile(latencies, 99.0));
      TrailingCounts(recent, now);
      FailuresCount(history);
      ThroughputExact(history, size, now);
      if InOrder(history) && ReachesBack(recent, size, now) { WindowTellsExactness(history, size, now); }
      PercentilesOrdered(latencies, 50.0, 95.0);
      PercentilesOrdered(latencies, 95.0, 99.0);
    }
  }
}
