/** Cardinality facts used where sets of rides, drivers and workers are counted against each other. */
module Counting {
  lemma {:induction false} SubsetSize<T>(s: set<T>, t: set<T>)
    requires s <= t
    ensures |s| <= |t| && (s != t ==> |s| < |t|)
  {
    assert t == s + (t - s);
    if s != t { var x :| x in t - s; }
  }

  /** A one-to-one map is onto a set of its own size. */
  lemma {:induction false} BijectionCounts<A, B>(xs: set<A>, ys: set<B>, f: map<A, B>)
    requires f.Keys == xs && f.Values == ys
    requires forall a, b :: a in xs && b in xs && f[a] == f[b] ==> a == b
    ensures |xs| == |ys|
    decreases |xs|
  {
    if xs != {} {
      var a :| a in xs;
      var rest := f - {a};
      assert f[a] in ys;
      forall y | y in ys - {f[a]} ensures y in rest.Values {
        var b :| b in f && f[b] == y;
        assert b in rest && rest[b] == y;
      }
      forall y | y in rest.Values ensures y in ys - {f[a]} {
        var b :| b in rest && rest[b] == y;
        assert b in f && f[b] == y;
      }
      BijectionCounts(xs - {a}, ys - {f[a]}, rest);
    } else {
      assert f == map[];
    }
  }

  predicate NoDuplicates<T(==)>(s: seq<T>) {
    forall i, j :: 0 <= i < j < |s| ==> s[i] != s[j]
  }

  lemma {:induction false} DistinctLength<T>(s: seq<T>, t: set<T>)
    requires NoDuplicates(s) && forall x :: x in s ==> x in t
    ensures |s| <= |t|
    ensures (forall x :: x in t ==> x in s) ==> |s| == |t|
  {
    if s != [] {
      var rest := s[1..];
      assert forall i :: 0 <= i < |rest| ==> rest[i] == s[i + 1];
      DistinctLength(rest, t - {s[0]});
    }
  }
}
