/** The two cluster builders and the scores of positioning clusters. */
module ClusterResults {
  import opened Prelude
  import opened Scoring
  import opened Clusters

  datatype ClusterContract = ClusterContract(
    id: int, strike: real, volume: nat, premium: Option<real>, score: real, spot: Option<real>)

  datatype PersistentState = PersistentBuild | PersistentDecline | OtherState

  /** `netChanges` holds the net open-interest change of the windows for which it is known. */
  datatype PositioningContract = PositioningContract(
    id: int, strike: real, openInterest: nat, structureScore: real, liquidityPoints: Option<real>,
    spot: Option<real>, persistentScore: Option<real>, persistentState: PersistentState, netChanges: map<nat, int>)

  function ClusterStrike(c: ClusterContract): real { c.strike }
  function ClusterSpot(c: ClusterContract): Option<real> { c.spot }
  function Strike(c: PositioningContract): real { c.strike }
  function Spot(c: PositioningContract): Option<real> { c.spot }
  function OpenInterest(c: PositioningContract): nat { c.openInterest }
  function StructureScore(c: PositioningContract): real { c.structureScore }

  /** The groups of `build_clusters`. */
  method BuildClusterGroups(candidates: seq<ClusterContract>, strikes: seq<real>)
    returns (groups: seq<seq<ClusterContract>>)
    ensures groups == Groups(candidates, strikes, ClusterStrike, ClusterSpot)
  {
    if |candidates| < 2 {
      return [];
    }
    var ladder := LadderOf(strikes);
    groups := GreedyGroups(Ordered(candidates, ladder, ClusterStrike), LadderFits(ladder, ClusterStrike, ClusterSpot));
  }

  datatype Classification = StrongCluster | ValidCluster | InvalidCluster

  datatype Shape = TightCluster | BroadCluster

  datatype PositioningResult = PositioningResult(
    contracts: seq<PositioningContract>, score: real, classification: Classification, shape: Shape,
    oiShare: Option<real>, center: Option<real>, weightedPersistent: Option<real>,
    buildCount: nat, declineCount: nat, netChanges: map<nat, int>)

  function TotalOi(g: seq<PositioningContract>): nat { Sum(g, OpenInterest) }

  /** OI-weighted structural strength. */
  function Strength(g: seq<PositioningContract>): real {
    if TotalOi(g) == 0 then 0.0 else WeightedSum(g, StructureScore, OpenInterest) / TotalOi(g) as real
  }

  predicate HasGap(g: seq<PositioningContract>, ladder: seq<real>) {
    exists k :: 0 < k < |g| && IndexIn(ladder, g[k].strike) - IndexIn(ladder, g[k - 1].strike) == 2
  }

  function Coherence(g: seq<PositioningContract>, ladder: seq<real>): real {
    var base := if |g| == 2 then 12.0 else if |g| == 3 then 18.0 else 25.0;
    if HasGap(g, ladder) then base - 5.0 else base
  }

  function Liquid(g: seq<PositioningContract>): seq<PositioningContract> {
    Filter(g, (c: PositioningContract) => c.liquidityPoints.Some?)
  }

  function LiquidityOf(c: PositioningContract): real {
    if c.liquidityPoints.Some? then c.liquidityPoints.value else 0.0
  }

  function One(c: PositioningContract): nat { 1 }

  /** Mean liquidity points rescaled from 15 to 10, None without any. */
  function Liquidity(g: seq<PositioningContract>): Option<real> {
    var liquid := Liquid(g);
    if liquid == [] then None
    else Some(WeightedSum(liquid, LiquidityOf, One) / |liquid| as real / 15.0 * 10.0)
  }

  function OiShare(g: seq<PositioningContract>, expiryOi: nat): Option<real> {
    SafeRatio(TotalOi(g), Some(expiryOi))
  }

  function OrZero(x: Option<real>): real { if x.Some? then x.value else 0.0 }

  function Concentration(g: seq<PositioningContract>, expiryOi: nat): Option<real> {
    var share := OiShare(g, expiryOi);
    AnchorRanges();
    if share.None? then None else Some(Piecewise(share.value, CLUSTER_OI_SHARE))
  }

  /** The sum of the four components. */
  function RawScore(g: seq<PositioningContract>, ladder: seq<real>, expiryOi: nat): real {
    Strength(g) / 100.0 * 30.0 + OrZero(Concentration(g, expiryOi)) + Coherence(g, ladder) + OrZero(Liquidity(g))
  }

  /** The score of a positioning cluster, which is also what classifies it. */
  function Score(g: seq<PositioningContract>, ladder: seq<real>, expiryOi: nat): real {
    Round3(RawScore(g, ladder, expiryOi))
  }

  function Classify(score: real): Classification {
    if score >= 80.0 then StrongCluster else if score >= 65.0 then ValidCluster else InvalidCluster
  }

  function FirstSpot(g: seq<PositioningContract>): Option<real> {
    if g == [] then None
    else
      var earlier := FirstSpot(g[..|g| - 1]);
      if earlier.Some? then earlier else Usable(g[|g| - 1].spot)
  }

  function ShapeOf(g: seq<PositioningContract>): Shape
    requires g != []
  {
    var spot := FirstSpot(g);
    if spot.Some? && spot.value != 0.0 && (g[|g| - 1].strike - g[0].strike) / spot.value <= 0.075 then TightCluster else BroadCluster
  }

  /** OI-weighted centre strike. */
  function Center(g: seq<PositioningContract>): Option<real> {
    if TotalOi(g) == 0 then None else Some(WeightedSum(g, Strike, OpenInterest) / TotalOi(g) as real)
  }

  function Persistent(g: seq<PositioningContract>): seq<PositioningContract> {
    Filter(g, (c: PositioningContract) => c.persistentScore.Some?)
  }

  function PersistentScore(c: PositioningContract): real { OrZero(c.persistentScore) }

  function WeightedPersistent(g: seq<PositioningContract>): Option<real> {
    var persistent := Persistent(g);
    if TotalOi(persistent) == 0 then None
    else Some(WeightedSum(persistent, PersistentScore, OpenInterest) / TotalOi(persistent) as real)
  }

  function CountState(g: seq<PositioningContract>, state: PersistentState): nat {
    |Filter(g, (c: PositioningContract) => c.persistentState == state)|
  }

  const NET_CHANGE_WINDOWS: set<nat> := {3, 5, 10}

  function NetChange(g: seq<PositioningContract>, window: nat): int {
    if g == [] then 0
    else
      var last := g[|g| - 1];
      NetChange(g[..|g| - 1], window) + if window in last.netChanges then last.netChanges[window] else 0
  }

  /** Per window the sum of the known changes, for the windows known to some member. */
  function NetChanges(g: seq<PositioningContract>): map<nat, int> {
    map window | window in NET_CHANGE_WINDOWS && exists c :: c in g && window in c.netChanges :: NetChange(g, window)
  }

  function ResultOf(g: seq<PositioningContract>, ladder: seq<real>, expiryOi: nat): PositioningResult
    requires g != []
  {
    var score := Score(g, ladder, expiryOi);
    PositioningResult(g, score, Classify(score), ShapeOf(g), OiShare(g, expiryOi), Center(g), WeightedPersistent(g),
                      CountState(g, PersistentBuild), CountState(g, PersistentDecline), NetChanges(g))
  }

  predicate NonEmpty(groups: seq<seq<PositioningContract>>) {
    forall i :: 0 <= i < |groups| ==> groups[i] != []
  }

  /** One result per group, in order. */
  function ResultsOf(groups: seq<seq<PositioningContract>>, ladder: seq<real>, expiryOi: nat): (r: seq<PositioningResult>)
    requires NonEmpty(groups)
    ensures |r| == |groups|
  {
    if groups == [] then []
    else ResultsOf(groups[..|groups| - 1], ladder, expiryOi) + [ResultOf(groups[|groups| - 1], ladder, expiryOi)]
  }

  method BuildPositioningClusters(candidates: seq<PositioningContract>, strikes: seq<real>, expiryOi: nat)
    returns (results: seq<PositioningResult>)
    ensures NonEmpty(Groups(candidates, strikes, Strike, Spot))
    ensures results == ResultsOf(Groups(candidates, strikes, Strike, Spot), LadderOf(strikes), expiryOi)
  {
    forall i | 0 <= i < |Groups(candidates, strikes, Strike, Spot)|
      ensures Groups(candidates, strikes, Strike, Spot)[i] != []
    {
      GroupIsRun(candidates, strikes, Strike, Spot, Groups(candidates, strikes, Strike, Spot)[i]);
    }
    if |candidates| < 2 {
      return [];
    }
    var ladder := LadderOf(strikes);
    var groups := GreedyGroups(Ordered(candidates, ladder, Strike), LadderFits(ladder, Strike, Spot));
    assert groups == Groups(candidates, strikes, Strike, Spot);
    assert NonEmpty(Groups(candidates, strikes, Strike, Spot));
    results := ScoreGroups(groups, ladder, expiryOi);
  }

  method ScoreGroups(groups: seq<seq<PositioningContract>>, ladder: seq<real>, expiryOi: nat)
    returns (results: seq<PositioningResult>)
    requires NonEmpty(groups)
    ensures results == ResultsOf(groups, ladder, expiryOi)
  {
    results := [];
    for i := 0 to |groups|
      invariant results == ResultsOf(groups[..i], ladder, expiryOi)
    {
      assert groups[..i + 1][..i] == groups[..i];
      results := results + [ResultOf(groups[i], ladder, expiryOi)];
    }
    assert groups[..|groups|] == groups;
  }

  // ---------------------------------------------------------------- bounds

  /** The centre lies between the group's lowest and highest strike. */
  lemma CenterWithinGroup(
      candidates: seq<PositioningContract>, strikes: seq<real>, g: seq<PositioningContract>)
    requires g in Groups(candidates, strikes, Strike, Spot) && TotalOi(g) > 0
    ensures g != [] && Center(g).Some? && g[0].strike <= Center(g).value <= g[|g| - 1].strike
  {
    GroupIsSorted(candidates, strikes, Strike, Spot, g);
    forall i | 0 <= i < |g|
      ensures g[0].strike <= Strike(g[i]) <= g[|g| - 1].strike
    {
      assert 0 < i ==> Strike(g[0]) <= Strike(g[i]);
      assert i < |g| - 1 ==> Strike(g[i]) <= Strike(g[|g| - 1]);
    }
    WeightedMeanWithin(g, Strike, OpenInterest, g[0].strike, g[|g| - 1].strike);
  }

  /** Weighted strength lies within any range that holds its members' scores. */
  lemma StrengthWithinMembers(g: seq<PositioningContract>, lo: real, hi: real)
    requires TotalOi(g) > 0 && forall i :: 0 <= i < |g| ==> lo <= g[i].structureScore <= hi
    ensures lo <= Strength(g) <= hi
  {
    forall i | 0 <= i < |g|
      ensures lo <= StructureScore(g[i]) <= hi
    {
    }
    WeightedMeanWithin(g, StructureScore, OpenInterest, lo, hi);
  }

  ghost predicate InRange(g: seq<PositioningContract>) {
    forall i :: 0 <= i < |g| ==>
      0.0 <= g[i].structureScore <= 100.0
      && (g[i].liquidityPoints.Some? ==> 0.0 <= g[i].liquidityPoints.value <= 15.0)
  }

  lemma {:induction false} SumOfOnes(g: seq<PositioningContract>)
    ensures Sum(g, One) == |g|
  {
    if g != [] { SumOfOnes(g[..|g| - 1]); }
  }

  lemma LiquidityWithin(g: seq<PositioningContract>)
    requires InRange(g)
    ensures 0.0 <= OrZero(Liquidity(g)) <= 10.0
  {
    var liquid := Liquid(g);
    FilterMembers(g, (c: PositioningContract) => c.liquidityPoints.Some?);
    if liquid != [] {
      forall i | 0 <= i < |liquid|
        ensures 0.0 <= LiquidityOf(liquid[i]) <= 15.0
      {
        assert liquid[i] in liquid;
      }
      SumOfOnes(liquid);
      WeightedMeanWithin(liquid, LiquidityOf, One, 0.0, 15.0);
      var mean := WeightedSum(liquid, LiquidityOf, One) / |liquid| as real;
      assert 0.0 <= mean / 15.0 * 10.0 <= 10.0;
    }
  }

  /** The score of a positioning cluster stays within 0..100. */
  lemma ScoreWithin(g: seq<PositioningContract>, ladder: seq<real>, expiryOi: nat)
    requires InRange(g)
    ensures 0.0 <= Score(g, ladder, expiryOi) <= 100.0
  {
    if TotalOi(g) > 0 { StrengthWithinMembers(g, 0.0, 100.0); }
    LiquidityWithin(g);
    AnchorRanges();
    var share := OiShare(g, expiryOi);
    if share.Some? { PiecewiseWithin(share.value, CLUSTER_OI_SHARE, 0.0, 35.0); }
    assert 0.0 <= Strength(g) / 100.0 * 30.0 <= 30.0;
    Round3Within(RawScore(g, ladder, expiryOi), 0, 100);
  }
}
