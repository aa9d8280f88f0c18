/** Interpolated scoring anchors and guarded ratios. */
module Scoring {
  import opened Prelude

  type Anchors = seq<(real, real)>

  ghost predicate ValidAnchors(anchors: Anchors) {
    anchors != [] && forall i :: 0 < i < |anchors| ==> anchors[i - 1].0 < anchors[i].0
  }

  ghost predicate AnchorsWithin(anchors: Anchors, lo: real, hi: real) {
    forall i :: 0 <= i < |anchors| ==> lo <= anchors[i].1 <= hi
  }

  function Interpolate(v: real, a: (real, real), b: (real, real)): real
    requires a.0 < b.0
  {
    a.1 + (v - a.0) / (b.0 - a.0) * (b.1 - a.1)
  }

  /** The first segment from anchor `k` on that reaches `v`, or the last anchor's value. */
  function PiecewiseFrom(v: real, anchors: Anchors, k: nat): real
    requires ValidAnchors(anchors) && k < |anchors|
    decreases |anchors| - k
  {
    if k + 1 == |anchors| then anchors[k].1
    else if v <= anchors[k + 1].0 then Interpolate(v, anchors[k], anchors[k + 1])
    else PiecewiseFrom(v, anchors, k + 1)
  }

  function Piecewise(v: real, anchors: Anchors): real
    requires ValidAnchors(anchors)
  {
    if v <= anchors[0].0 then anchors[0].1 else PiecewiseFrom(v, anchors, 0)
  }

  lemma ScaleBetween(q: real, d: real)
    requires 0.0 <= q <= 1.0
    ensures d >= 0.0 ==> 0.0 <= q * d <= d
    ensures d <= 0.0 ==> d <= q * d <= 0.0
  {
  }

  lemma FractionBetween(n: real, d: real)
    requires 0.0 < n <= d
    ensures 0.0 <= n / d <= 1.0
  {
    assert n / d * d == n && d / d == 1.0;
    assert n / d <= d / d;
  }

  lemma InterpolateBetween(v: real, a: (real, real), b: (real, real), lo: real, hi: real)
    requires a.0 < v <= b.0 && lo <= a.1 <= hi && lo <= b.1 <= hi
    ensures lo <= Interpolate(v, a, b) <= hi
  {
    var q, d := (v - a.0) / (b.0 - a.0), b.1 - a.1;
    FractionBetween(v - a.0, b.0 - a.0);
    ScaleBetween(q, d);
    assert Interpolate(v, a, b) == a.1 + q * d;
  }

  lemma {:induction false} PiecewiseFromWithin(v: real, anchors: Anchors, k: nat, lo: real, hi: real)
    requires ValidAnchors(anchors) && AnchorsWithin(anchors, lo, hi) && k < |anchors| && anchors[k].0 < v
    ensures lo <= PiecewiseFrom(v, anchors, k) <= hi
    decreases |anchors| - k
  {
    if k + 1 < |anchors| {
      if v <= anchors[k + 1].0 {
        InterpolateBetween(v, anchors[k], anchors[k + 1], lo, hi);
      } else {
        PiecewiseFromWithin(v, anchors, k + 1, lo, hi);
      }
    }
  }

  /** A piecewise score never leaves the range of its anchor points. */
  lemma PiecewiseWithin(v: real, anchors: Anchors, lo: real, hi: real)
    requires ValidAnchors(anchors) && AnchorsWithin(anchors, lo, hi)
    ensures lo <= Piecewise(v, anchors) <= hi
  {
    if anchors[0].0 < v { PiecewiseFromWithin(v, anchors, 0, lo, hi); }
  }

  function SafeRatio(numerator: int, denominator: Option<int>): Option<real> {
    if denominator.None? || denominator.value == 0 then None
    else Some(numerator as real / denominator.value as real)
  }

  /** Rounding to the nearest integer, ties to even. */
  function RoundHalfEven(x: real): int {
    var below := x.Floor;
    var rest := x - below as real;
    if rest < 0.5 || (rest == 0.5 && below % 2 == 0) then below else below + 1
  }

  function Round3(x: real): real { RoundHalfEven(x * 1000.0) as real / 1000.0 }

  /** Rounding to three decimals moves a value by at most half a thousandth and keeps it within
      whole bounds. */
  lemma Round3Within(x: real, lo: int, hi: int)
    requires lo as real <= x <= hi as real
    ensures lo as real <= Round3(x) <= hi as real
    ensures -0.0005 <= Round3(x) - x <= 0.0005
  {
    var n := RoundHalfEven(x * 1000.0);
    assert (1000 * lo) as real <= x * 1000.0 <= (1000 * hi) as real;
    assert 1000 * lo <= n <= 1000 * hi;
  }

  const CLUSTER_OI_SHARE: Anchors := [(0.05, 0.0), (0.10, 5.0), (0.20, 12.0), (0.40, 22.0), (0.60, 35.0)]
  const DIRECTIONAL_PERSISTENCE: Anchors := [(0.50, 0.0), (0.60, 5.0), (0.70, 10.0), (0.80, 18.0), (0.90, 25.0), (1.0, 30.0)]
  const CONTRACT_PERSISTENT_GROWTH: Anchors := [(0.10, 0.0), (0.25, 8.0), (0.50, 16.0), (1.0, 25.0), (2.0, 35.0)]
  const CONTRACT_PERSISTENT_BUILD_SHARE: Anchors := [(0.0025, 0.0), (0.005, 5.0), (0.01, 12.0), (0.02, 22.0), (0.05, 35.0)]

  lemma AnchorRanges()
    ensures ValidAnchors(CLUSTER_OI_SHARE) && AnchorsWithin(CLUSTER_OI_SHARE, 0.0, 35.0)
    ensures ValidAnchors(DIRECTIONAL_PERSISTENCE) && AnchorsWithin(DIRECTIONAL_PERSISTENCE, 0.0, 30.0)
    ensures ValidAnchors(CONTRACT_PERSISTENT_GROWTH) && AnchorsWithin(CONTRACT_PERSISTENT_GROWTH, 0.0, 35.0)
    ensures ValidAnchors(CONTRACT_PERSISTENT_BUILD_SHARE) && AnchorsWithin(CONTRACT_PERSISTENT_BUILD_SHARE, 0.0, 35.0)
  {
  }
}
