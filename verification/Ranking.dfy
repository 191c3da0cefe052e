/** Ordering candidates by their distance from the pickup point. */
module Ranking {
  import opened Domain
  import opened Counting

  datatype Candidate = Candidate(driver: DriverId, km: real)

  function Distance(c: Config, req: Request, p: Place): real {
    c.distance(req.lat, req.lng, p.lat, p.lng)
  }

  predicate Sorted(s: seq<Candidate>) {
    forall i, j :: 0 <= i < j < |s| ==> s[i].km <= s[j].km
  }

  function Ids(s: seq<Candidate>): (ids: seq<DriverId>)
    ensures |ids| == |s| && forall i :: 0 <= i < |s| ==> ids[i] == s[i].driver
  {
    seq(|s|, i requires 0 <= i < |s| => s[i].driver)
  }

  /** The ids of `found`, each once, nearest first; ties in any order. */
  ghost predicate RankedOrder(c: Config, req: Request, found: map<DriverId, Place>, order: seq<DriverId>) {
    && NoDuplicates(order)
    && (forall d :: d in order <==> d in found)
    && (forall i, j :: 0 <= i < j < |order| ==>
          Distance(c, req, found[order[i]]) <= Distance(c, req, found[order[j]]))
  }

  /** The candidates at one given distance, in their order of appearance. */
  function AtDistance(s: seq<Candidate>, km: real): seq<Candidate> {
    if s == [] then []
    else AtDistance(s[..|s| - 1], km) + (if s[|s| - 1].km == km then [s[|s| - 1]] else [])
  }

  /** Inserts after every candidate that is no farther. */
  function InsertSorted(s: seq<Candidate>, x: Candidate): (r: seq<Candidate>)
    requires Sorted(s)
    ensures Sorted(r) && multiset(r) == multiset(s) + multiset{x}
    ensures |r| == |s| + 1
    ensures r[|s|].km == if s == [] || s[|s| - 1].km <= x.km then x.km else s[|s| - 1].km
  {
    if s == [] || s[|s| - 1].km <= x.km then s + [x]
    else
      assert s == s[..|s| - 1] + [s[|s| - 1]];
      InsertSorted(s[..|s| - 1], x) + [s[|s| - 1]]
  }

  /** `list.sort(key=distance)`, which is stable. */
  function StableSort(s: seq<Candidate>): (r: seq<Candidate>)
    ensures Sorted(r) && multiset(r) == multiset(s)
  {
    if s == [] then []
    else
      assert s == s[..|s| - 1] + [s[|s| - 1]];
      InsertSorted(StableSort(s[..|s| - 1]), s[|s| - 1])
  }

  function IfAt(x: Candidate, km: real): seq<Candidate> { if x.km == km then [x] else [] }

  lemma AtDistanceAppend(s: seq<Candidate>, x: Candidate, km: real)
    ensures AtDistance(s + [x], km) == AtDistance(s, km) + IfAt(x, km)
  {}

  lemma SwapIfEitherEmpty<T>(a: seq<T>, b: seq<T>, c: seq<T>)
    requires b == [] || c == []
    ensures a + b + c == a + c + b
  {}

  lemma {:induction false} InsertKeepsTies(s: seq<Candidate>, x: Candidate, km: real)
    requires Sorted(s)
    ensures AtDistance(InsertSorted(s, x), km) == AtDistance(s, km) + IfAt(x, km)
  {
    if s == [] || s[|s| - 1].km <= x.km {
      AtDistanceAppend(s, x, km);
    } else {
      var front, last := s[..|s| - 1], s[|s| - 1];
      InsertKeepsTies(front, x, km);
      AtDistanceAppend(InsertSorted(front, x), last, km);
      SwapIfEitherEmpty(AtDistance(front, km), IfAt(x, km), IfAt(last, km));
    }
  }

  /** Sorting moves no candidate past another at the same distance. */
  lemma {:induction false} SortIsStable(s: seq<Candidate>, km: real)
    ensures AtDistance(StableSort(s), km) == AtDistance(s, km)
  {
    if s != [] {
      var front, last := s[..|s| - 1], s[|s| - 1];
      SortIsStable(front, km);
      InsertKeepsTies(StableSort(front), last, km);
    }
  }

  lemma {:induction false} InsertKeepsDistinct(s: seq<Candidate>, x: Candidate)
    requires Sorted(s) && NoDuplicates(Ids(s)) && forall y :: y in s ==> y.driver != x.driver
    ensures NoDuplicates(Ids(InsertSorted(s, x)))
  {
    if s != [] && s[|s| - 1].km > x.km {
      var front := s[..|s| - 1];
      assert forall i :: 0 <= i < |front| ==> Ids(front)[i] == Ids(s)[i];
      InsertKeepsDistinct(front, x);
      var t := InsertSorted(front, x);
      forall i | 0 <= i < |t| ensures t[i].driver != s[|s| - 1].driver {
        assert t[i] in multiset(t);
        if t[i] != x { LastIsDistinct(s, t[i]); }
      }
      AppendKeepsDistinct(t, s[|s| - 1]);
    }
    else { AppendKeepsDistinct(s, x); }
  }

  lemma LastIsDistinct(s: seq<Candidate>, y: Candidate)
    requires s != [] && NoDuplicates(Ids(s)) && y in s[..|s| - 1]
    ensures y.driver != s[|s| - 1].driver
  {
    var j :| 0 <= j < |s| - 1 && s[j] == y;
    assert Ids(s)[j] != Ids(s)[|s| - 1];
  }

  lemma AppendKeepsDistinct(s: seq<Candidate>, x: Candidate)
    requires NoDuplicates(Ids(s)) && forall i :: 0 <= i < |s| ==> s[i].driver != x.driver
    ensures NoDuplicates(Ids(s + [x]))
  {
    forall i, j | 0 <= i < j < |s + [x]| ensures Ids(s + [x])[i] != Ids(s + [x])[j] {
      if j < |s| { assert Ids(s)[i] != Ids(s)[j]; }
    }
  }

  lemma {:induction false} SortKeepsDistinct(s: seq<Candidate>)
    requires NoDuplicates(Ids(s))
    ensures NoDuplicates(Ids(StableSort(s)))
  {
    if s != [] {
      var front := s[..|s| - 1];
      assert forall i :: 0 <= i < |front| ==> Ids(front)[i] == Ids(s)[i];
      SortKeepsDistinct(front);
      forall y | y in StableSort(front) ensures y.driver != s[|s| - 1].driver {
        assert y in multiset(StableSort(front));
        var j :| 0 <= j < |front| && front[j] == y;
        assert Ids(s)[j] != Ids(s)[|s| - 1];
      }
      InsertKeepsDistinct(StableSort(front), s[|s| - 1]);
    }
  }
}
