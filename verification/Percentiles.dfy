/** Percentiles as the dashboard computes them: the 99 cut points of the "inclusive" method of
    `statistics.quantiles` with n = 100, then a clamped index. Floats are modelled as reals. */
module Percentiles {
  import opened RealArithmetic

  predicate Ascending(s: seq<real>) { forall i, j :: 0 <= i < j < |s| ==> s[i] <= s[j] }

  /** The point delta hundredths of the way from lo to hi. */
  function Blend(lo: real, hi: real, delta: nat): real
    requires delta <= 100
  {
    (lo * (100 - delta) as real + hi * delta as real) / 100.0
  }

  /** Cut point i lies on the line between two neighbouring data points. */
  function CutPoint(s: seq<real>, i: nat): real
    requires |s| >= 2 && 1 <= i <= 99
  {
    CutInside(i, |s| - 1);
    Blend(s[Whole(s, i)], s[Whole(s, i) + 1], Part(s, i))
  }

  function Whole(s: seq<real>, i: nat): nat
    requires |s| >= 2
  {
    i * (|s| - 1) / 100
  }

  function Part(s: seq<real>, i: nat): (d: nat)
    requires |s| >= 2
    ensures d < 100
  {
    i * (|s| - 1) % 100
  }

  lemma CutInside(i: nat, m: nat)
    requires 1 <= i <= 99 && m >= 1
    ensures i * m / 100 < m
  {}

  function Quantiles(s: seq<real>): (q: seq<real>)
    requires |s| >= 2
    ensures |q| == 99
  {
    seq(99, k requires 0 <= k < 99 => CutPoint(s, k + 1))
  }

  /** `min(max(int(pct) - 1, 0), 98)`; flooring and truncation differ only where both clamp to 0. */
  function CutIndex(pct: real): nat {
    var k := pct.Floor - 1;
    if k < 0 then 0 else if k > 98 then 98 else k
  }

  function Percentile(s: seq<real>, pct: real): real {
    if s == [] then 0.0 else if |s| == 1 then s[0] else Quantiles(s)[CutIndex(pct)]
  }

  /** Moving weight from the lower to the upper point never lowers the blend, which stays between them. */
  lemma BlendAscends(lo: real, hi: real, d: nat, e: nat)
    requires lo <= hi && d <= e <= 100
    ensures lo <= Blend(lo, hi, d) <= Blend(lo, hi, e) <= hi
  {
    hide Blend;
    var p, q := (hi - lo) * d as real, (hi - lo) * e as real;
    BlendIsLinear(lo, hi, d, p);
    BlendIsLinear(lo, hi, e, q);
    Share(hi - lo, d as real, e as real, p, q);
  }

  /** Shares of a gap, in hundredths. */
  lemma Share(gap: real, x: real, y: real, p: real, q: real)
    requires gap >= 0.0 && 0.0 <= x <= y <= 100.0 && p == gap * x && q == gap * y
    ensures 0.0 <= p <= q <= 100.0 * gap
  {
    ScaledFromZero(gap, x);
    Scales(gap, x, y);
    Scales(gap, y, 100.0);
    assert p <= q <= gap * 100.0;
  }

  lemma BlendIsLinear(lo: real, hi: real, d: nat, p: real)
    requires d <= 100 && p == (hi - lo) * d as real
    ensures 100.0 * Blend(lo, hi, d) == 100.0 * lo + p
  {}

  /** A cut point lies between the two data points it interpolates. */
  lemma CutPointBetween(s: seq<real>, i: nat)
    requires |s| >= 2 && 1 <= i <= 99 && Ascending(s)
    ensures Whole(s, i) + 1 < |s| && s[Whole(s, i)] <= CutPoint(s, i) <= s[Whole(s, i) + 1]
  {
    CutInside(i, |s| - 1);
    BlendAscends(s[Whole(s, i)], s[Whole(s, i) + 1], Part(s, i), Part(s, i));
  }

  /** The position of a later cut point is no earlier. */
  lemma PositionsAscend(s: seq<real>, h: nat, i: nat)
    requires |s| >= 2 && h <= i
    ensures Whole(s, h) < Whole(s, i) || (Whole(s, h) == Whole(s, i) && Part(s, h) <= Part(s, i))
  {
    ScalesInt(|s| - 1, h, i);
  }

  /** Later cut points are no smaller. */
  lemma CutPointsAscend(s: seq<real>, h: nat, i: nat)
    requires |s| >= 2 && 1 <= h <= i <= 99 && Ascending(s)
    ensures CutPoint(s, h) <= CutPoint(s, i)
  {
    hide Blend, Whole, Part;
    CutPointBetween(s, h);
    CutPointBetween(s, i);
    PositionsAscend(s, h, i);
    var j, k := Whole(s, h), Whole(s, i);
    if j == k { BlendAscends(s[j], s[j + 1], Part(s, h), Part(s, i)); }
    else { assert s[j + 1] <= s[k]; }
  }

  /** Percentiles are ordered like their arguments and never leave the range of the data; every data
      point that falls on a whole percent is returned as it is. */
  lemma PercentilesOrdered(s: seq<real>, a: real, b: real)
    requires Ascending(s) && a <= b
    ensures Percentile(s, a) <= Percentile(s, b)
    ensures s != [] ==> s[0] <= Percentile(s, a) && Percentile(s, b) <= s[|s| - 1]
  {
    if |s| >= 2 {
      hide CutPoint, Whole, Part;
      var h, i := CutIndex(a) + 1, CutIndex(b) + 1;
      CutPointsAscend(s, h, i);
      CutPointBetween(s, h);
      CutPointBetween(s, i);
    }
  }

  /** The rank of a percentile, in hundredths, falls j points and delta hundredths into the data: the value lies
      delta hundredths of the way from point j to the next. */
  lemma RankIsInterpolated(s: seq<real>, pct: nat, j: nat, delta: nat)
    requires |s| >= 2 && 1 <= pct <= 99 && delta < 100 && pct * (|s| - 1) == 100 * j + delta
    ensures j + 1 < |s|
    ensures 100.0 * (Percentile(s, pct as real) - s[j]) == (s[j + 1] - s[j]) * delta as real
  {
    hide Blend;
    CutInside(pct, |s| - 1);
    assert pct * (|s| - 1) / 100 == j && pct * (|s| - 1) % 100 == delta;
    assert CutIndex(pct as real) == pct - 1;
    assert Percentile(s, pct as real) == CutPoint(s, pct);
    BlendIsLinear(s[j], s[j + 1], delta, (s[j + 1] - s[j]) * delta as real);
  }

  /** When the rank of a percentile is whole, the percentile is that data point. */
  lemma WholeRankIsDataPoint(s: seq<real>, pct: nat, j: nat)
    requires |s| >= 2 && 1 <= pct <= 99 && pct * (|s| - 1) == 100 * j
    ensures j < |s| && Percentile(s, pct as real) == s[j]
  {
    CutInside(pct, |s| - 1);
    assert pct * (|s| - 1) / 100 == j && pct * (|s| - 1) % 100 == 0;
    assert CutIndex(pct as real) == pct - 1;
    assert Percentile(s, pct as real) == CutPoint(s, pct);
  }
}
