/** Strike clusters: one greedy segmentation behind two cluster builders. */
module Clusters {
  import opened Prelude
  import opened Scoring

  // ---------------------------------------------------------------- the segmentation

  /** Whether `x` extends the run `current`. */
  type Fits<!T> = (seq<T>, T) -> bool

  function Extend<T>(rs: seq<seq<T>>, x: T, fits: Fits<T>): seq<seq<T>> {
    if rs != [] && fits(rs[|rs| - 1], x) then rs[..|rs| - 1] + [rs[|rs| - 1] + [x]] else rs + [[x]]
  }

  /** Left to right, each element joins the last run or starts a new one. */
  function Runs<T>(s: seq<T>, fits: Fits<T>): (r: seq<seq<T>>)
    ensures s != [] ==> r != []
  {
    if s == [] then [] else Extend(Runs(s[..|s| - 1], fits), s[|s| - 1], fits)
  }

  function Concat<T>(rs: seq<seq<T>>): seq<T> {
    if rs == [] then [] else Concat(rs[..|rs| - 1]) + rs[|rs| - 1]
  }

  /** Every element of a run after its first fitted the run before it. */
  ghost predicate Grown<T(!new)>(r: seq<T>, fits: Fits<T>) {
    r != [] && forall k :: 0 < k < |r| ==> fits(r[..k], r[k])
  }

  /** A segmentation into grown runs in which every break was forced. */
  ghost predicate IsSegmentation<T(!new)>(s: seq<T>, rs: seq<seq<T>>, fits: Fits<T>) {
    && Concat(rs) == s
    && (forall i :: 0 <= i < |rs| ==> Grown(rs[i], fits))
    && (forall i :: 0 < i < |rs| ==> !fits(rs[i - 1], rs[i][0]))
  }

  lemma GrownStep<T(!new)>(r: seq<T>, x: T, fits: Fits<T>)
    requires Grown(r, fits) && fits(r, x)
    ensures Grown(r + [x], fits)
  {
    var grown := r + [x];
    forall k | 0 < k < |grown|
      ensures fits(grown[..k], grown[k])
    {
      assert grown[..k] == r[..k];
      assert r[..|r|] == r;
    }
  }

  lemma ExtendSegments<T(!new)>(s: seq<T>, rs: seq<seq<T>>, x: T, fits: Fits<T>)
    requires IsSegmentation(s, rs, fits)
    ensures IsSegmentation(s + [x], Extend(rs, x, fits), fits)
  {
    var rs' := Extend(rs, x, fits);
    if rs != [] && fits(rs[|rs| - 1], x) {
      var last := rs[|rs| - 1];
      assert Grown(last, fits);
      GrownStep(last, x, fits);
      assert rs'[..|rs'| - 1] == rs[..|rs| - 1];
      assert Concat(rs') == Concat(rs[..|rs| - 1]) + (last + [x]);
      assert (last + [x])[0] == last[0];
    } else {
      assert rs'[..|rs'| - 1] == rs;
      assert Grown([x], fits);
    }
  }

  lemma {:induction false} RunsSegment<T(!new)>(s: seq<T>, fits: Fits<T>)
    ensures IsSegmentation(s, Runs(s, fits), fits)
  {
    if s != [] {
      var front, x := s[..|s| - 1], s[|s| - 1];
      RunsSegment(front, fits);
      ExtendSegments(front, Runs(front, fits), x, fits);
      assert s == front + [x];
    }
  }

  /** A segmentation without its last element. */
  function Shorten<T>(rs: seq<seq<T>>): seq<seq<T>>
    requires rs != [] && rs[|rs| - 1] != []
  {
    var last := rs[|rs| - 1];
    if |last| == 1 then rs[..|rs| - 1] else rs[..|rs| - 1] + [last[..|last| - 1]]
  }

  lemma ShortenSegments<T(!new)>(s: seq<T>, rs: seq<seq<T>>, fits: Fits<T>)
    requires IsSegmentation(s, rs, fits) && rs != []
    ensures rs[|rs| - 1] != [] && s != []
    ensures s[|s| - 1] == rs[|rs| - 1][|rs[|rs| - 1]| - 1]
    ensures IsSegmentation(s[..|s| - 1], Shorten(rs), fits)
  {
    var n := |rs| - 1;
    var last, init := rs[n], rs[..n];
    assert Grown(last, fits);
    var m := |last| - 1;
    assert s == Concat(init) + last;
    assert s[..|s| - 1] == Concat(init) + last[..m];
    var shorter := Shorten(rs);
    if m > 0 {
      ShortenGrown(last, fits);
      assert shorter == init + [last[..m]] && shorter[..n] == init;
      assert last[..m][0] == last[0];
    } else {
      assert shorter == init && last[..m] == [];
    }
    assert forall i :: 0 <= i < n ==> shorter[i] == rs[i];
  }

  lemma ShortenGrown<T(!new)>(r: seq<T>, fits: Fits<T>)
    requires Grown(r, fits) && |r| > 1
    ensures Grown(r[..|r| - 1], fits)
  {
    var shorter := r[..|r| - 1];
    forall k | 0 < k < |shorter|
      ensures fits(shorter[..k], shorter[k])
    {
      assert shorter[..k] == r[..k] && shorter[k] == r[k];
    }
  }

  lemma ExtendShortened<T(!new)>(rs: seq<seq<T>>, fits: Fits<T>)
    requires rs != [] && Grown(rs[|rs| - 1], fits)
    requires |rs| > 1 ==> !fits(rs[|rs| - 2], rs[|rs| - 1][0])
    ensures Extend(Shorten(rs), rs[|rs| - 1][|rs[|rs| - 1]| - 1], fits) == rs
  {
    var n := |rs| - 1;
    var last := rs[n];
    var m := |last| - 1;
    assert rs == rs[..n] + [last];
    if m > 0 {
      assert fits(last[..m], last[m]);
      assert last == last[..m] + [last[m]];
      assert Shorten(rs)[..n] == rs[..n];
    } else {
      assert last == [last[0]];
    }
  }

  /** The greedy segmentation is the only one: grown runs with forced breaks determine it. */
  lemma {:induction false} SegmentationIsUnique<T(!new)>(s: seq<T>, rs: seq<seq<T>>, fits: Fits<T>)
    requires IsSegmentation(s, rs, fits)
    ensures rs == Runs(s, fits)
    decreases |s|
  {
    if rs != [] {
      ShortenSegments(s, rs, fits);
      SegmentationIsUnique(s[..|s| - 1], Shorten(rs), fits);
      ExtendShortened(rs, fits);
    }
  }

  function LongRuns<T>(rs: seq<seq<T>>): seq<seq<T>> {
    Filter(rs, (r: seq<T>) => |r| >= 2)
  }

  /** The loop shared by both builders: `current` grows until a break, and runs of two or more
      are emitted. */
  method GreedyGroups<T>(ordered: seq<T>, fits: Fits<T>) returns (groups: seq<seq<T>>)
    ensures groups == LongRuns(Runs(ordered, fits))
  {
    groups := [];
    var current: seq<T> := [];
    for i := 0 to |ordered|
      invariant current == [] <==> i == 0
      invariant i > 0 ==> Runs(ordered[..i], fits) != [] && current == Runs(ordered[..i], fits)[|Runs(ordered[..i], fits)| - 1]
      invariant i > 0 ==> groups == LongRuns(Runs(ordered[..i], fits)[..|Runs(ordered[..i], fits)| - 1])
      invariant i == 0 ==> groups == []
    {
      assert ordered[..i + 1][..i] == ordered[..i] && ordered[..i + 1][i] == ordered[i];
      ghost var rs, rs' := Runs(ordered[..i], fits), Runs(ordered[..i + 1], fits);
      var row := ordered[i];
      if current == [] {
        current := [row];
      } else if fits(current, row) {
        assert rs'[..|rs'| - 1] == rs[..|rs| - 1];
        current := current + [row];
      } else {
        assert rs'[..|rs'| - 1] == rs && rs == rs[..|rs| - 1] + [current];
        if |current| >= 2 { groups := groups + [current]; }
        current := [row];
      }
    }
    assert ordered[..|ordered|] == ordered;
    ghost var rs := Runs(ordered, fits);
    if |current| >= 2 { groups := groups + [current]; }
    if ordered != [] { assert rs == rs[..|rs| - 1] + [current]; }
  }

  // ---------------------------------------------------------------- the strike test

  predicate RealLeq(a: real, b: real) { a <= b }

  /** The full strike ladder: distinct strikes in increasing order. */
  function LadderOf(strikes: seq<real>): seq<real> {
    StableSort(RealLeq, DistinctStrikes(strikes))
  }

  function DistinctStrikes(strikes: seq<real>): seq<real> {
    if strikes == [] then []
    else
      var ds, x := DistinctStrikes(strikes[..|strikes| - 1]), strikes[|strikes| - 1];
      if x in ds then ds else ds + [x]
  }

  function IndexIn(ladder: seq<real>, strike: real): nat {
    if ladder == [] then 0
    else if ladder[|ladder| - 1] == strike then |ladder| - 1
    else IndexIn(ladder[..|ladder| - 1], strike)
  }

  function Usable(spot: Option<real>): Option<real> {
    if spot.Some? && spot.value != 0.0 then spot else None
  }

  /** `row.spot or prior.spot`. */
  function SpotOf(row: Option<real>, prior: Option<real>): Option<real> {
    if Usable(row).Some? then row else Usable(prior)
  }

  const MAX_SPAN := 0.20

  /** At most two ladder steps from the run's last strike, and the run's span stays within 20% of
      spot when a spot is known. */
  predicate Joins(ladder: seq<real>, first: real, prior: real, priorSpot: Option<real>, strike: real, spot: Option<real>) {
    && IndexIn(ladder, strike) - IndexIn(ladder, prior) <= 2
    && var s := SpotOf(spot, priorSpot);
       s.None? || s.value == 0.0 || (strike - first) / s.value <= MAX_SPAN
  }

  /** The test of both builders' loops, over the strike and spot of their contracts. */
  function LadderFits<T>(ladder: seq<real>, strike: T -> real, spot: T -> Option<real>): Fits<T> {
    (current: seq<T>, row: T) =>
      current != []
      && Joins(ladder, strike(current[0]), strike(current[|current| - 1]), spot(current[|current| - 1]), strike(row), spot(row))
  }

  function ByStrike<T>(strike: T -> real): (T, T) -> bool {
    (a: T, b: T) => strike(a) <= strike(b)
  }

  /** The on-ladder candidates in strike order (equal strikes keep their input order). */
  function Ordered<T>(candidates: seq<T>, ladder: seq<real>, strike: T -> real): seq<T> {
    StableSort(ByStrike(strike), Filter(candidates, (c: T) => strike(c) in ladder))
  }

  /** The groups a builder scores. */
  function Groups<T>(candidates: seq<T>, strikes: seq<real>, strike: T -> real, spot: T -> Option<real>): seq<seq<T>> {
    if |candidates| < 2 then []
    else
      var ladder := LadderOf(strikes);
      LongRuns(Runs(Ordered(candidates, ladder, strike), LadderFits(ladder, strike, spot)))
  }

  // ---------------------------------------------------------------- what the groups satisfy

  ghost predicate OccursAt<T(!new)>(s: seq<T>, r: seq<T>, k: int) {
    0 <= k && k + |r| <= |s| && s[k..k + |r|] == r
  }

  lemma {:induction false} ConcatHolds<T(!new)>(rs: seq<seq<T>>, i: nat)
    requires i < |rs|
    ensures exists k :: OccursAt(Concat(rs), rs[i], k)
  {
    var front := rs[..|rs| - 1];
    if i < |front| {
      ConcatHolds(front, i);
      var k :| OccursAt(Concat(front), rs[i], k);
      assert OccursAt(Concat(rs), rs[i], k);
    } else {
      assert OccursAt(Concat(rs), rs[i], |Concat(front)|);
    }
  }

  lemma {:induction false} LongRunsAre<T(!new)>(rs: seq<seq<T>>, g: seq<T>)
    ensures g in LongRuns(rs) <==> g in rs && |g| >= 2
  {
    FilterMembers(rs, (r: seq<T>) => |r| >= 2);
  }

  lemma OrderedIsSorted<T(!new)>(candidates: seq<T>, ladder: seq<real>, strike: T -> real)
    ensures SortedBy(ByStrike(strike), Ordered(candidates, ladder, strike))
    ensures forall c :: c in Ordered(candidates, ladder, strike) <==> c in candidates && strike(c) in ladder
  {
    var kept := Filter(candidates, (c: T) => strike(c) in ladder);
    FilterMembers(candidates, (c: T) => strike(c) in ladder);
    SortKeeps(ByStrike(strike), kept);
    SortDistinct(ByStrike(strike), kept);
  }

  lemma SliceKeeps<T(!new)>(s: seq<T>, r: seq<T>, k: int, strike: T -> real)
    requires OccursAt(s, r, k) && SortedBy(ByStrike(strike), s)
    ensures forall i, j :: 0 <= i < j < |r| ==> strike(r[i]) <= strike(r[j])
    ensures forall c :: c in r ==> c in s
  {
    forall i, j | 0 <= i < j < |r|
      ensures strike(r[i]) <= strike(r[j])
    {
      assert r[i] == s[k + i] && r[j] == s[k + j];
      assert ByStrike(strike)(s[k + i], s[k + j]);
    }
  }

  /** The strike test between element `k` of a group and the elements before it. */
  predicate JoinsAt<T>(ladder: seq<real>, strike: T -> real, spot: T -> Option<real>, g: seq<T>, k: nat)
    requires 0 < k < |g|
  {
    Joins(ladder, strike(g[0]), strike(g[k - 1]), spot(g[k - 1]), strike(g[k]), spot(g[k]))
  }

  lemma GrownJoins<T(!new)>(ladder: seq<real>, strike: T -> real, spot: T -> Option<real>, g: seq<T>, k: nat)
    requires Grown(g, LadderFits(ladder, strike, spot)) && 0 < k < |g|
    ensures JoinsAt(ladder, strike, spot, g, k)
  {
    assert LadderFits(ladder, strike, spot)(g[..k], g[k]);
    assert g[..k][0] == g[0] && g[..k][k - 1] == g[k - 1];
  }

  lemma GroupIsRun<T(!new)>(candidates: seq<T>, strikes: seq<real>, strike: T -> real, spot: T -> Option<real>, g: seq<T>)
    requires g in Groups(candidates, strikes, strike, spot)
    ensures |g| >= 2 && Grown(g, LadderFits(LadderOf(strikes), strike, spot))
    ensures exists k :: OccursAt(Ordered(candidates, LadderOf(strikes), strike), g, k)
  {
    var ladder := LadderOf(strikes);
    var fits := LadderFits(ladder, strike, spot);
    var s := Ordered(candidates, ladder, strike);
    RunsSegment(s, fits);
    LongRunsAre(Runs(s, fits), g);
    var i :| 0 <= i < |Runs(s, fits)| && Runs(s, fits)[i] == g;
    ConcatHolds(Runs(s, fits), i);
  }

  /** Strikes of a group never decrease; its members are candidates on the ladder. */
  lemma GroupIsSorted<T(!new)>(candidates: seq<T>, strikes: seq<real>, strike: T -> real, spot: T -> Option<real>, g: seq<T>)
    requires g in Groups(candidates, strikes, strike, spot)
    ensures |g| >= 2 && forall i, j :: 0 <= i < j < |g| ==> strike(g[i]) <= strike(g[j])
    ensures forall c :: c in g ==> c in candidates && strike(c) in strikes
  {
    GroupIsRun(candidates, strikes, strike, spot, g);
    var s := Ordered(candidates, LadderOf(strikes), strike);
    var k :| OccursAt(s, g, k);
    OrderedIsSorted(candidates, LadderOf(strikes), strike);
    SliceKeeps(s, g, k, strike);
    LadderIsStrict(strikes);
  }

  // The ladder really ranks strikes: `IndexIn` is the position in strictly increasing order.

  lemma {:induction false} DistinctStrikesMembers(strikes: seq<real>)
    ensures forall x :: x in DistinctStrikes(strikes) <==> x in strikes
    ensures Distinct(DistinctStrikes(strikes))
  {
    if strikes != [] {
      DistinctStrikesMembers(strikes[..|strikes| - 1]);
      assert strikes == strikes[..|strikes| - 1] + [strikes[|strikes| - 1]];
    }
  }

  lemma LadderIsStrict(strikes: seq<real>)
    ensures forall x :: x in LadderOf(strikes) <==> x in strikes
    ensures Ascending(LadderOf(strikes))
  {
    var ds := DistinctStrikes(strikes);
    DistinctStrikesMembers(strikes);
    SortKeeps(RealLeq, ds);
    SortDistinct(RealLeq, ds);
    var ladder := LadderOf(strikes);
    forall i, j | 0 <= i < j < |ladder|
      ensures ladder[i] < ladder[j]
    {
      assert RealLeq(ladder[i], ladder[j]);
    }
  }

  lemma {:induction false} IndexInFinds(ladder: seq<real>, x: real)
    requires x in ladder
    ensures IndexIn(ladder, x) < |ladder| && ladder[IndexIn(ladder, x)] == x
  {
    if ladder[|ladder| - 1] != x {
      assert ladder == ladder[..|ladder| - 1] + [ladder[|ladder| - 1]];
      IndexInFinds(ladder[..|ladder| - 1], x);
    }
  }

  /** Two strikes are at most two ladder steps apart. */
  ghost predicate Near(strikes: seq<real>, a: real, b: real) {
    forall x, y :: x in strikes && y in strikes ==> !(a < x < y < b)
  }

  ghost predicate Ascending(ladder: seq<real>) {
    forall i, j :: 0 <= i < j < |ladder| ==> ladder[i] < ladder[j]
  }

  lemma NoTwoBetween(ladder: seq<real>, a: nat, b: nat, i: nat, j: nat)
    requires Ascending(ladder) && a < |ladder| && b < |ladder| && i < |ladder| && j < |ladder| && b - a <= 2
    ensures !(ladder[a] < ladder[i] < ladder[j] < ladder[b])
  {
    assert ladder[a] < ladder[i] ==> a < i;
    assert ladder[i] < ladder[j] ==> i < j;
    assert ladder[j] < ladder[b] ==> j < b;
  }

  lemma StepsAreStrikes(strikes: seq<real>, a: real, b: real)
    requires a in strikes && b in strikes
    requires IndexIn(LadderOf(strikes), b) - IndexIn(LadderOf(strikes), a) <= 2
    ensures Near(strikes, a, b)
  {
    LadderIsStrict(strikes);
    var ladder := LadderOf(strikes);
    forall x, y | x in strikes && y in strikes
      ensures !(a < x < y < b)
    {
      assert x in ladder && y in ladder;
      NotBoth(ladder, a, b, x, y);
    }
  }

  lemma NotBoth(ladder: seq<real>, a: real, b: real, x: real, y: real)
    requires Ascending(ladder) && a in ladder && b in ladder && x in ladder && y in ladder
    requires IndexIn(ladder, b) - IndexIn(ladder, a) <= 2
    ensures !(a < x < y < b)
  {
    IndexInFinds(ladder, a);
    IndexInFinds(ladder, b);
    IndexInFinds(ladder, x);
    IndexInFinds(ladder, y);
    NoTwoBetween(ladder, IndexIn(ladder, a), IndexIn(ladder, b), IndexIn(ladder, x), IndexIn(ladder, y));
  }

  /** Between neighbours of a group lies at most one other strike of the full ladder. */
  lemma GroupNeighboursAreNear<T(!new)>(
      candidates: seq<T>, strikes: seq<real>, strike: T -> real, spot: T -> Option<real>, g: seq<T>, k: nat)
    requires g in Groups(candidates, strikes, strike, spot) && 0 < k < |g|
    ensures Near(strikes, strike(g[k - 1]), strike(g[k]))
  {
    GroupIsRun(candidates, strikes, strike, spot, g);
    GroupIsSorted(candidates, strikes, strike, spot, g);
    GrownJoins(LadderOf(strikes), strike, spot, g, k);
    assert g[k - 1] in g && g[k] in g;
    StepsAreStrikes(strikes, strike(g[k - 1]), strike(g[k]));
  }

  lemma JoinedSpan(ladder: seq<real>, first: real, prior: real, strike: real, s: real)
    requires s > 0.0 && Joins(ladder, first, prior, Some(s), strike, Some(s))
    ensures strike - first <= MAX_SPAN * s
  {
    var width := strike - first;
    var q := width / s;
    assert q * s == width;
    assert (MAX_SPAN - q) * s >= 0.0;
  }

  /** With one positive spot for all candidates, no group is wider than 20% of it. */
  lemma GroupsSpanAtMost20Percent<T(!new)>(
      candidates: seq<T>, strikes: seq<real>, strike: T -> real, spot: T -> Option<real>, g: seq<T>, common: real)
    requires g in Groups(candidates, strikes, strike, spot)
    requires common > 0.0 && forall c :: c in candidates ==> spot(c) == Some(common)
    ensures g != [] && strike(g[|g| - 1]) - strike(g[0]) <= MAX_SPAN * common
  {
    GroupIsRun(candidates, strikes, strike, spot, g);
    GroupIsSorted(candidates, strikes, strike, spot, g);
    var n := |g| - 1;
    var ladder := LadderOf(strikes);
    assert Joins(ladder, strike(g[0]), strike(g[n - 1]), Some(common), strike(g[n]), Some(common)) by {
      GrownJoins(ladder, strike, spot, g, n);
      assert g[n] in g && g[n - 1] in g;
    }
    JoinedSpan(ladder, strike(g[0]), strike(g[n - 1]), strike(g[n]), common);
  }

  /** Every break between neighbouring runs is forced: the ladder gap is over two steps, or a known
      spot makes the span exceed 20%. Together the runs are the on-ladder candidates in order. */
  lemma BreaksAreForced<T(!new)>(
      candidates: seq<T>, strikes: seq<real>, strike: T -> real, spot: T -> Option<real>, i: nat)
    requires var fits := LadderFits(LadderOf(strikes), strike, spot);
      0 < i < |Runs(Ordered(candidates, LadderOf(strikes), strike), fits)|
    ensures var ladder := LadderOf(strikes);
      var fits := LadderFits(ladder, strike, spot);
      var rs := Runs(Ordered(candidates, ladder, strike), fits);
      && Concat(rs) == Ordered(candidates, ladder, strike)
      && rs[i] != [] && rs[i - 1] != []
      && var last, next := rs[i - 1][|rs[i - 1]| - 1], rs[i][0];
         var s := SpotOf(spot(next), spot(last));
         || IndexIn(ladder, strike(next)) - IndexIn(ladder, strike(last)) > 2
         || (s.Some? && s.value != 0.0 && (strike(next) - strike(rs[i - 1][0])) / s.value > MAX_SPAN)
  {
    var fits := LadderFits(LadderOf(strikes), strike, spot);
    var s := Ordered(candidates, LadderOf(strikes), strike);
    RunsSegment(s, fits);
    assert Grown(Runs(s, fits)[i], fits) && Grown(Runs(s, fits)[i - 1], fits);
  }

  // ---------------------------------------------------------------- conservation of open interest

  function Sum<T>(s: seq<T>, w: T -> nat): nat {
    if s == [] then 0 else Sum(s[..|s| - 1], w) + w(s[|s| - 1])
  }

  function SumOfSums<T>(rs: seq<seq<T>>, w: T -> nat): nat {
    if rs == [] then 0 else SumOfSums(rs[..|rs| - 1], w) + Sum(rs[|rs| - 1], w)
  }

  lemma {:induction false} SumConcat<T>(a: seq<T>, b: seq<T>, w: T -> nat)
    ensures Sum(a + b, w) == Sum(a, w) + Sum(b, w)
  {
    if b == [] {
      assert a + b == a;
    } else {
      SumConcat(a, b[..|b| - 1], w);
      assert (a + b)[..|a + b| - 1] == a + b[..|b| - 1];
    }
  }

  lemma {:induction false} SumOfRuns<T>(rs: seq<seq<T>>, w: T -> nat)
    ensures SumOfSums(rs, w) == Sum(Concat(rs), w)
  {
    if rs != [] {
      SumOfRuns(rs[..|rs| - 1], w);
      SumConcat(Concat(rs[..|rs| - 1]), rs[|rs| - 1], w);
    }
  }

  lemma {:induction false} SumOfLongRuns<T>(rs: seq<seq<T>>, w: T -> nat)
    ensures SumOfSums(LongRuns(rs), w) <= SumOfSums(rs, w)
  {
    if rs != [] {
      SumOfLongRuns(rs[..|rs| - 1], w);
      var kept := LongRuns(rs[..|rs| - 1]);
      assert (kept + [rs[|rs| - 1]])[..|kept|] == kept;
    }
  }

  lemma {:induction false} SumOfInsert<T>(leq: (T, T) -> bool, s: seq<T>, x: T, w: T -> nat)
    ensures Sum(Insert(leq, s, x), w) == Sum(s, w) + w(x)
  {
    if s == [] || leq(s[|s| - 1], x) {
      assert (s + [x])[..|s|] == s;
    } else {
      SumOfInsert(leq, s[..|s| - 1], x, w);
      var r := Insert(leq, s[..|s| - 1], x);
      assert (r + [s[|s| - 1]])[..|r|] == r;
    }
  }

  lemma {:induction false} SumOfSorted<T>(leq: (T, T) -> bool, s: seq<T>, w: T -> nat)
    ensures Sum(StableSort(leq, s), w) == Sum(s, w)
  {
    if s != [] {
      SumOfSorted(leq, s[..|s| - 1], w);
      SumOfInsert(leq, StableSort(leq, s[..|s| - 1]), s[|s| - 1], w);
    }
  }

  lemma {:induction false} SumOfFilter<T>(s: seq<T>, keep: T -> bool, w: T -> nat)
    ensures Sum(Filter(s, keep), w) <= Sum(s, w)
  {
    if s != [] {
      SumOfFilter(s[..|s| - 1], keep, w);
      var kept := Filter(s[..|s| - 1], keep);
      assert (kept + [s[|s| - 1]])[..|kept|] == kept;
    }
  }

  /** All groups together never hold more than the candidates did. */
  lemma GroupTotalsNeverExceedCandidates<T(!new)>(
      candidates: seq<T>, strikes: seq<real>, strike: T -> real, spot: T -> Option<real>, w: T -> nat)
    ensures SumOfSums(Groups(candidates, strikes, strike, spot), w) <= Sum(candidates, w)
  {
    if |candidates| >= 2 {
      var ladder := LadderOf(strikes);
      var fits := LadderFits(ladder, strike, spot);
      var s := Ordered(candidates, ladder, strike);
      RunsSegment(s, fits);
      SumOfLongRuns(Runs(s, fits), w);
      SumOfRuns(Runs(s, fits), w);
      SumOfSorted(ByStrike(strike), Filter(candidates, (c: T) => strike(c) in ladder), w);
      SumOfFilter(candidates, (c: T) => strike(c) in ladder, w);
    }
  }

  // ---------------------------------------------------------------- weighted means

  function WeightedSum<T>(s: seq<T>, value: T -> real, w: T -> nat): real {
    if s == [] then 0.0
    else WeightedSum(s[..|s| - 1], value, w) + value(s[|s| - 1]) * w(s[|s| - 1]) as real
  }

  lemma WeightedStep(lo: real, m: real, n: real, v: real, x: real)
    requires lo * m <= v && lo <= x && n >= 0.0
    ensures lo * (m + n) <= v + x * n
  {
    assert lo * (m + n) == lo * m + lo * n;
    assert (x - lo) * n >= 0.0;
    assert (x - lo) * n == x * n - lo * n;
  }

  lemma {:induction false} WeightedSumLow<T>(s: seq<T>, value: T -> real, w: T -> nat, lo: real)
    requires forall i :: 0 <= i < |s| ==> lo <= value(s[i])
    ensures lo * Sum(s, w) as real <= WeightedSum(s, value, w)
  {
    if s != [] {
      var front, x := s[..|s| - 1], s[|s| - 1];
      WeightedSumLow(front, value, w, lo);
      WeightedStep(lo, Sum(front, w) as real, w(x) as real, WeightedSum(front, value, w), value(x));
    }
  }

  lemma {:induction false} WeightedSumHigh<T>(s: seq<T>, value: T -> real, w: T -> nat, hi: real)
    requires forall i :: 0 <= i < |s| ==> value(s[i]) <= hi
    ensures WeightedSum(s, value, w) <= hi * Sum(s, w) as real
  {
    if s != [] {
      var front, x := s[..|s| - 1], s[|s| - 1];
      WeightedSumHigh(front, value, w, hi);
      WeightedStep(-hi, Sum(front, w) as real, w(x) as real, -WeightedSum(front, value, w), -value(x));
    }
  }

  lemma DivideLow(v: real, d: real, lo: real)
    requires d > 0.0 && lo * d <= v
    ensures lo <= v / d
  {
    var q := v / d;
    assert q * d == v;
    assert (q - lo) * d >= 0.0;
  }

  lemma DivideHigh(v: real, d: real, hi: real)
    requires d > 0.0 && v <= hi * d
    ensures v / d <= hi
  {
    var q := v / d;
    assert q * d == v;
    assert (hi - q) * d >= 0.0;
  }

  lemma WeightedMeanLow<T>(s: seq<T>, value: T -> real, w: T -> nat, lo: real)
    requires Sum(s, w) > 0 && forall i :: 0 <= i < |s| ==> lo <= value(s[i])
    ensures lo <= WeightedSum(s, value, w) / Sum(s, w) as real
  {
    WeightedSumLow(s, value, w, lo);
    DivideLow(WeightedSum(s, value, w), Sum(s, w) as real, lo);
  }

  lemma WeightedMeanHigh<T>(s: seq<T>, value: T -> real, w: T -> nat, hi: real)
    requires Sum(s, w) > 0 && forall i :: 0 <= i < |s| ==> value(s[i]) <= hi
    ensures WeightedSum(s, value, w) / Sum(s, w) as real <= hi
  {
    WeightedSumHigh(s, value, w, hi);
    DivideHigh(WeightedSum(s, value, w), Sum(s, w) as real, hi);
  }

  /** A weighted mean lies between the least and the greatest value. */
  lemma WeightedMeanWithin<T>(s: seq<T>, value: T -> real, w: T -> nat, lo: real, hi: real)
    requires forall i :: 0 <= i < |s| ==> lo <= value(s[i]) <= hi
    requires Sum(s, w) > 0
    ensures lo <= WeightedSum(s, value, w) / Sum(s, w) as real <= hi
  {
    WeightedMeanLow(s, value, w, lo);
    WeightedMeanHigh(s, value, w, hi);
  }
}
