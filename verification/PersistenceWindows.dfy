/** Open-interest persistence over the 3-, 5- and 10-observation windows. */
module PersistenceWindows {
  import opened Prelude
  import opened Scoring
  import opened TradingCalendar

  datatype OiPoint = OiPoint(day: Date, oi: int, share: Option<real>)

  // ---------------------------------------------------------------- the dated series

  /** Assigns `p` under its date: an existing entry keeps its place and takes the new value. */
  function Put(entries: seq<OiPoint>, p: OiPoint): (r: seq<OiPoint>) {
    if entries == [] then [p]
    else
      var front, last := entries[..|entries| - 1], entries[|entries| - 1];
      if last.day == p.day then front + [p]
      else if exists e :: e in front && e.day == p.day then Put(front, p) + [last]
      else entries + [p]
  }

  function ByDate(points: seq<OiPoint>): seq<OiPoint> {
    if points == [] then [] else Put(ByDate(points[..|points| - 1]), points[|points| - 1])
  }

  predicate DayLeq(a: OiPoint, b: OiPoint) { a.day <= b.day }

  predicate Known(p: OiPoint, analysis: Option<Date>) { analysis.None? || p.day <= analysis.value }

  /** One point a day, oldest first, none after the analysis date. */
  function Series(points: seq<OiPoint>, analysis: Option<Date>): seq<OiPoint> {
    StableSort(DayLeq, ByDate(Filter(points, (p: OiPoint) => Known(p, analysis))))
  }

  ghost predicate OnePerDay(s: seq<OiPoint>) {
    forall i, j :: 0 <= i < j < |s| ==> s[i].day != s[j].day
  }

  ghost predicate HasDay(s: seq<OiPoint>, day: Date) { exists e :: e in s && e.day == day }

  lemma {:induction false} PutMeaning(entries: seq<OiPoint>, p: OiPoint)
    requires OnePerDay(entries)
    ensures OnePerDay(Put(entries, p))
    ensures forall q :: q in Put(entries, p) <==> q == p || (q in entries && q.day != p.day)
  {
    if entries != [] {
      var front, last := entries[..|entries| - 1], entries[|entries| - 1];
      assert entries == front + [last];
      assert forall q :: q in front ==> q.day != last.day;
      if last.day != p.day && HasDay(front, p.day) {
        PutMeaning(front, p);
        var r := Put(front, p);
        assert forall q :: q in r ==> q.day != last.day;
        assert forall i :: 0 <= i < |r| ==> r[i] in r;
      } else if last.day == p.day {
        assert forall i :: 0 <= i < |front| ==> front[i] in front;
      } else {
        assert forall i :: 0 <= i < |front| ==> front[i] in front;
        assert forall q :: q in entries ==> q.day != p.day;
      }
    }
  }

  /** The last point of its day. */
  ghost predicate IsLastOfDay(points: seq<OiPoint>, i: int) {
    0 <= i < |points| && forall j :: i < j < |points| ==> points[j].day != points[i].day
  }

  /** `q` is the last point given for its day. */
  ghost predicate HoldsLast(points: seq<OiPoint>, q: OiPoint) {
    exists i :: IsLastOfDay(points, i) && points[i] == q
  }

  lemma LastStep(front: seq<OiPoint>, p: OiPoint, q: OiPoint)
    ensures HoldsLast(front + [p], q) <==> q == p || (HoldsLast(front, q) && q.day != p.day)
  {
    var points, n := front + [p], |front|;
    assert points[n] == p && IsLastOfDay(points, n);
    if HoldsLast(front, q) && q.day != p.day {
      var i :| IsLastOfDay(front, i) && front[i] == q;
      assert IsLastOfDay(points, i) && points[i] == q;
    }
    if HoldsLast(points, q) && q != p {
      var i :| IsLastOfDay(points, i) && points[i] == q;
      assert points[n].day != points[i].day;
      assert forall j :: i < j < n ==> points[j] == front[j];
      assert IsLastOfDay(front, i) && front[i] == q;
    }
  }

  lemma {:induction false} ByDateMeaning(points: seq<OiPoint>)
    ensures OnePerDay(ByDate(points))
    ensures forall q :: q in ByDate(points) <==> HoldsLast(points, q)
  {
    if points != [] {
      var front, p := points[..|points| - 1], points[|points| - 1];
      ByDateMeaning(front);
      PutMeaning(ByDate(front), p);
      assert points == front + [p];
      forall q
        ensures q in ByDate(points) <==> HoldsLast(points, q)
      {
        LastStep(front, p, q);
      }
    }
  }

  /** The series holds, in strict date order, exactly the last point given for each known date. */
  lemma SeriesMeaning(points: seq<OiPoint>, analysis: Option<Date>)
    ensures var known := Filter(points, (p: OiPoint) => Known(p, analysis));
      var s := Series(points, analysis);
      && (forall i, j :: 0 <= i < j < |s| ==> s[i].day < s[j].day)
      && forall q :: q in s <==> HoldsLast(known, q)
  {
    var known := Filter(points, (p: OiPoint) => Known(p, analysis));
    var entries := ByDate(known);
    ByDateMeaning(known);
    SortKeeps(DayLeq, entries);
    SortDistinct(DayLeq, entries);
    var s := Series(points, analysis);
    assert Distinct(entries);
    forall i, j | 0 <= i < j < |s|
      ensures s[i].day < s[j].day
    {
      assert DayLeq(s[i], s[j]);
      assert s[i] in entries && s[j] in entries;
      DaysDiffer(entries, s[i], s[j]);
    }
  }

  lemma DaysDiffer(entries: seq<OiPoint>, a: OiPoint, b: OiPoint)
    requires OnePerDay(entries) && a in entries && b in entries && a != b
    ensures a.day != b.day
  {
    var i :| 0 <= i < |entries| && entries[i] == a;
    var j :| 0 <= j < |entries| && entries[j] == b;
  }

  /** Points dated after the analysis date change nothing, wherever they stand. */
  lemma LaterPointsIgnored(before: seq<OiPoint>, late: seq<OiPoint>, after: seq<OiPoint>, analysis: Date)
    requires forall p :: p in late ==> p.day > analysis
    ensures Series(before + late + after, Some(analysis)) == Series(before + after, Some(analysis))
  {
    var keep := (p: OiPoint) => Known(p, Some(analysis));
    FilterConcat(before + late, after, keep);
    FilterConcat(before, late, keep);
    FilterConcat(before, after, keep);
    FilterEmpty(late, keep);
    assert Filter(before, keep) + [] == Filter(before, keep);
  }

  // ---------------------------------------------------------------- one window

  datatype Direction = PersistentBuild | PersistentDecline | Flat

  datatype Confidence = Insufficient | Low | Medium | Full

  function HistoryConfidence(count: nat): Confidence {
    if count < 3 then Insufficient else if count < 5 then Low else if count < 10 then Medium else Full
  }

  function Deltas(rows: seq<OiPoint>): (r: seq<int>)
    ensures |r| == if rows == [] then 0 else |rows| - 1
  {
    if |rows| < 2 then [] else Deltas(rows[..|rows| - 1]) + [rows[|rows| - 1].oi - rows[|rows| - 2].oi]
  }

  function CountRises(deltas: seq<int>): (n: nat)
    ensures n <= |deltas|
  {
    if deltas == [] then 0
    else CountRises(deltas[..|deltas| - 1]) + if deltas[|deltas| - 1] > 0 then 1 else 0
  }

  function CountFalls(deltas: seq<int>): (n: nat)
    ensures n <= |deltas|
  {
    if deltas == [] then 0
    else CountFalls(deltas[..|deltas| - 1]) + if deltas[|deltas| - 1] < 0 then 1 else 0
  }

  datatype WindowFeatures = WindowFeatures(
    window: nat, first: Date, last: Date, net: int, growth: Option<real>, shareChange: Option<real>,
    rises: nat, falls: nat, persistence: Option<real>, state: Direction)

  function Fraction(n: nat, d: nat): Option<real> {
    if d == 0 then None else Some(n as real / d as real)
  }

  function DirectionOf(net: int): Direction {
    if net > 0 then PersistentBuild else if net < 0 then PersistentDecline else Flat
  }

  function Difference(a: Option<real>, b: Option<real>): Option<real> {
    if a.Some? && b.Some? then Some(a.value - b.value) else None
  }

  /** The features of one window's rows. */
  function FeaturesOfRows(rows: seq<OiPoint>): WindowFeatures
    requires rows != []
  {
    var first, current := rows[0], rows[|rows| - 1];
    var deltas := Deltas(rows);
    var net := current.oi - first.oi;
    var rises, falls := CountRises(deltas), CountFalls(deltas);
    var matching := if net > 0 then rises else if net < 0 then falls else 0;
    WindowFeatures(
      |rows|, first.day, current.day, net, SafeRatio(net, Some(first.oi)), Difference(current.share, first.share),
      rises, falls, Fraction(matching, |deltas|), DirectionOf(net))
  }

  /** The features of the newest `window` points, None with too few. */
  function Features(points: seq<OiPoint>, window: nat): Option<WindowFeatures> {
    if window == 0 || |points| < window then None else Some(FeaturesOfRows(points[|points| - window..]))
  }

  function Total(deltas: seq<int>): int {
    if deltas == [] then 0 else Total(deltas[..|deltas| - 1]) + deltas[|deltas| - 1]
  }

  /** Interval changes telescope to the net change. */
  lemma {:induction false} DeltasTelescope(rows: seq<OiPoint>)
    requires rows != []
    ensures Total(Deltas(rows)) == rows[|rows| - 1].oi - rows[0].oi
  {
    if |rows| > 1 {
      var front := rows[..|rows| - 1];
      DeltasTelescope(front);
      assert Deltas(rows)[..|rows| - 2] == Deltas(front);
    }
  }

  lemma {:induction false} SignsOfTotal(deltas: seq<int>)
    ensures Total(deltas) > 0 ==> CountRises(deltas) > 0
    ensures Total(deltas) < 0 ==> CountFalls(deltas) > 0
    ensures CountRises(deltas) + CountFalls(deltas) <= |deltas|
    ensures CountRises(deltas) == 0 && CountFalls(deltas) == 0 ==> Total(deltas) == 0
    ensures CountRises(deltas) == 0 ==> Total(deltas) <= 0
    ensures CountFalls(deltas) == 0 ==> Total(deltas) >= 0
  {
    if deltas != [] { SignsOfTotal(deltas[..|deltas| - 1]); }
  }

  lemma FractionOrder(a: nat, b: nat, d: nat)
    requires a <= b && d > 0
    ensures a as real / d as real <= b as real / d as real
  {
    assert (b as real - a as real) / d as real >= 0.0;
    assert (b as real - a as real) / d as real == b as real / d as real - a as real / d as real;
  }

  lemma MatchingFraction(matching: nat, n: nat)
    requires matching <= n && n > 0
    ensures 0.0 <= matching as real / n as real <= 1.0
    ensures matching >= 1 ==> matching as real / n as real >= 1.0 / n as real
  {
    FractionOrder(0, matching, n);
    FractionOrder(matching, n, n);
    if matching >= 1 { FractionOrder(1, matching, n); }
  }

  lemma FractionsTogether(rises: nat, falls: nat, n: nat)
    requires rises + falls <= n && n > 0
    ensures rises as real / n as real + falls as real / n as real <= 1.0
  {
    MatchingFraction(rises + falls, n);
    assert rises as real / n as real + falls as real / n as real == (rises + falls) as real / n as real;
  }

  /** A nonzero net change forces at least one interval in its direction, hence a directional
      persistence of at least 1/(window-1); a flat window has none. */
  lemma NetForcesPersistence(rows: seq<OiPoint>)
    requires |rows| >= 2
    ensures var f := FeaturesOfRows(rows);
      && f.persistence.Some? && 0.0 <= f.persistence.value <= 1.0
      && (f.net != 0 ==> f.persistence.value >= 1.0 / (|rows| - 1) as real)
      && (f.net == 0 <==> f.state == Flat)
      && (f.state == Flat ==> f.persistence.value == 0.0)
  {
    var deltas, n := Deltas(rows), |rows| - 1;
    DeltasTelescope(rows);
    SignsOfTotal(deltas);
    var net := Total(deltas);
    MatchingFraction(if net > 0 then CountRises(deltas) else if net < 0 then CountFalls(deltas) else 0, n);
  }

  /** Build and decline persistence together never exceed 1. */
  lemma BuildAndDecline(rows: seq<OiPoint>)
    requires |rows| >= 2
    ensures var f, n := FeaturesOfRows(rows), |rows| - 1;
      f.rises as real / n as real + f.falls as real / n as real <= 1.0
  {
    var deltas := Deltas(rows);
    SignsOfTotal(deltas);
    FractionsTogether(CountRises(deltas), CountFalls(deltas), |rows| - 1);
  }

  // ---------------------------------------------------------------- the winning window

  const WINDOWS: seq<nat> := [3, 5, 10]

  const EXPIRY_SHARE_CHANGE: Anchors := [(0.005, 0.0), (0.01, 8.0), (0.02, 16.0), (0.05, 28.0), (0.10, 40.0)]
  const EXPIRY_GROWTH: Anchors := [(0.05, 0.0), (0.10, 5.0), (0.25, 12.0), (0.50, 20.0), (1.0, 30.0)]

  function Abs(x: real): real { if x < 0.0 then -x else x }

  /** The points of one score component, 0 when its input is absent. */
  function Points(x: Option<real>, anchors: Anchors): real
    requires ValidAnchors(anchors)
  {
    if x.None? then 0.0 else Piecewise(Abs(x.value), anchors)
  }

  lemma PointsWithin(x: Option<real>, anchors: Anchors, hi: real)
    requires ValidAnchors(anchors) && AnchorsWithin(anchors, 0.0, hi) && hi >= 0.0
    ensures 0.0 <= Points(x, anchors) <= hi
  {
    if x.Some? { PiecewiseWithin(Abs(x.value), anchors, 0.0, hi); }
  }

  function BuildShare(f: WindowFeatures, sideOi: Option<int>): Option<real> {
    SafeRatio(if f.net < 0 then -f.net else f.net, sideOi)
  }

  /** Growth, build share and directional persistence of a contract window. A build share below
      zero (a negative same-side total) scores like zero, the first anchor's value. */
  function ContractScore(f: WindowFeatures, sideOi: Option<int>): real {
    AnchorRanges();
    var share := BuildShare(f, sideOi);
    Points(f.growth, CONTRACT_PERSISTENT_GROWTH)
    + (if share.None? then 0.0 else Piecewise(share.value, CONTRACT_PERSISTENT_BUILD_SHARE))
    + Points(f.persistence, DIRECTIONAL_PERSISTENCE)
  }

  lemma ExpiryAnchorRanges()
    ensures ValidAnchors(EXPIRY_SHARE_CHANGE) && AnchorsWithin(EXPIRY_SHARE_CHANGE, 0.0, 40.0)
    ensures ValidAnchors(EXPIRY_GROWTH) && AnchorsWithin(EXPIRY_GROWTH, 0.0, 30.0)
  {
  }

  function ExpiryScore(f: WindowFeatures): real {
    AnchorRanges();
    ExpiryAnchorRanges();
    Points(f.shareChange, EXPIRY_SHARE_CHANGE)
    + Points(f.growth, EXPIRY_GROWTH)
    + Points(f.persistence, DIRECTIONAL_PERSISTENCE)
  }

  lemma ContractScoreWithin(f: WindowFeatures, sideOi: Option<int>)
    ensures 0.0 <= ContractScore(f, sideOi) <= 100.0
  {
    AnchorRanges();
    PointsWithin(f.growth, CONTRACT_PERSISTENT_GROWTH, 35.0);
    PointsWithin(f.persistence, DIRECTIONAL_PERSISTENCE, 30.0);
    var share := BuildShare(f, sideOi);
    if share.Some? { PiecewiseWithin(share.value, CONTRACT_PERSISTENT_BUILD_SHARE, 0.0, 35.0); }
  }

  lemma ExpiryScoreWithin(f: WindowFeatures)
    ensures 0.0 <= ExpiryScore(f) <= 100.0
  {
    AnchorRanges();
    ExpiryAnchorRanges();
    PointsWithin(f.shareChange, EXPIRY_SHARE_CHANGE, 40.0);
    PointsWithin(f.growth, EXPIRY_GROWTH, 30.0);
    PointsWithin(f.persistence, DIRECTIONAL_PERSISTENCE, 30.0);
  }

  datatype Candidate = Candidate(score: real, window: nat, state: Direction)

  datatype PersistenceResult = PersistenceResult(
    winner: Option<Candidate>, confidence: Confidence, count: nat, windows: map<nat, WindowFeatures>, deltaOi1: Option<int>)

  /** Tuple order on (score, window); windows of one run differ, so states are never compared. */
  predicate Below(a: Candidate, b: Candidate) {
    a.score < b.score || (a.score == b.score && a.window <= b.window)
  }

  type FeatureTable = nat -> Option<WindowFeatures>

  function Table(points: seq<OiPoint>): FeatureTable { (window: nat) => Features(points, window) }

  /** The `i`-th window is filled and scores as `c`. */
  ghost predicate Scores(table: FeatureTable, score: WindowFeatures -> real, i: int, c: Candidate) {
    && 0 <= i < 3 && table(WINDOWS[i]).Some?
    && c == Candidate(score(table(WINDOWS[i]).value), WINDOWS[i], table(WINDOWS[i]).value.state)
  }

  /** `best` comes from one of the first `k` windows and no other filled one beats it. */
  ghost predicate IsBest(table: FeatureTable, score: WindowFeatures -> real, k: int, best: Option<Candidate>)
    requires 0 <= k <= 3
  {
    && (best.None? <==> forall i :: 0 <= i < k ==> table(WINDOWS[i]).None?)
    && (best.Some? ==> exists i :: 0 <= i < k && Scores(table, score, i, best.value))
    && (best.Some? ==> forall i, c :: 0 <= i < k && Scores(table, score, i, c) ==> Below(c, best.value))
  }

  ghost predicate WindowsRecorded(table: FeatureTable, k: int, windows: map<nat, WindowFeatures>)
    requires 0 <= k <= 3
  {
    forall w :: (w in windows <==> w in WINDOWS[..k] && table(w).Some?)
      && (w in windows ==> table(w) == Some(windows[w]))
  }

  /** The window loop of both persistence scores: the winner is the lexicographic maximum. */
  method ScoreWindows(table: FeatureTable, score: WindowFeatures -> real)
    returns (winner: Option<Candidate>, windows: map<nat, WindowFeatures>)
    ensures IsBest(table, score, 3, winner)
    ensures WindowsRecorded(table, 3, windows)
  {
    winner, windows := None, map[];
    for k := 0 to 3
      invariant IsBest(table, score, k, winner)
      invariant WindowsRecorded(table, k, windows)
    {
      var features := table(WINDOWS[k]);
      assert WINDOWS[..k + 1] == WINDOWS[..k] + [WINDOWS[k]];
      if features.Some? {
        var candidate := Candidate(score(features.value), WINDOWS[k], features.value.state);
        assert Scores(table, score, k, candidate);
        windows := windows[WINDOWS[k] := features.value];
        if winner.None? || Below(winner.value, candidate) {
          winner := Some(candidate);
        }
      }
    }
  }

  lemma FilledIffEnough(points: seq<OiPoint>)
    ensures (forall i :: 0 <= i < 3 ==> Table(points)(WINDOWS[i]).None?) <==> HistoryConfidence(|points|) == Insufficient
  {
    assert WINDOWS[0] == 3 && WINDOWS[1] == 5 && WINDOWS[2] == 10;
  }

  function DeltaOi1(points: seq<OiPoint>): Option<int> {
    if |points| >= 2 then Some(points[|points| - 1].oi - points[|points| - 2].oi) else None
  }

  method ContractPersistence(points: seq<OiPoint>, sideOi: Option<int>, analysis: Option<Date>)
    returns (r: PersistenceResult)
    ensures var s := Series(points, analysis);
      && r.count == |s| && r.confidence == HistoryConfidence(|s|) && r.deltaOi1 == DeltaOi1(s)
      && IsBest(Table(s), (f: WindowFeatures) => ContractScore(f, sideOi), 3, r.winner)
      && WindowsRecorded(Table(s), 3, r.windows)
    ensures r.winner.Some? <==> r.confidence != Insufficient
    ensures r.winner.Some? ==> 0.0 <= r.winner.value.score <= 100.0
  {
    var s := Series(points, analysis);
    var score := (f: WindowFeatures) => ContractScore(f, sideOi);
    var table := Table(s);
    var winner, windows := ScoreWindows(table, score);
    FilledIffEnough(s);
    if winner.Some? {
      ghost var i :| 0 <= i < 3 && Scores(table, score, i, winner.value);
      ContractScoreWithin(table(WINDOWS[i]).value, sideOi);
    }
    r := PersistenceResult(winner, HistoryConfidence(|s|), |s|, windows, DeltaOi1(s));
  }

  method ExpiryPersistence(points: seq<OiPoint>) returns (r: PersistenceResult)
    ensures var s := Series(points, None);
      && r.count == |s| && r.confidence == HistoryConfidence(|s|)
      && IsBest(Table(s), ExpiryScore, 3, r.winner)
      && WindowsRecorded(Table(s), 3, r.windows)
    ensures r.winner.Some? <==> r.confidence != Insufficient
    ensures r.winner.Some? ==> 0.0 <= r.winner.value.score <= 100.0
  {
    var s := Series(points, None);
    var table := Table(s);
    var winner, windows := ScoreWindows(table, ExpiryScore);
    FilledIffEnough(s);
    if winner.Some? {
      ghost var i :| 0 <= i < 3 && Scores(table, ExpiryScore, i, winner.value);
      ExpiryScoreWithin(table(WINDOWS[i]).value);
    }
    r := PersistenceResult(winner, HistoryConfidence(|s|), |s|, windows, None);
  }
}
