/** The active anomaly pool and its grouping into one projection per ticker. */
module CandidateGrouping {
  import opened Prelude
  import opened TradingCalendar
  import opened CurrentPersistence

  /** The active discovery families, in their fixed order. */
  datatype Family = RadarEvent | ExpiryActivity | ContractPersistence

  const ACTIVE_FAMILIES := [RadarEvent, ExpiryActivity, ContractPersistence]

  function FamilyOrder(f: Family): nat {
    match f case RadarEvent => 0 case ExpiryActivity => 1 case ContractPersistence => 2
  }

  datatype SourceTable = RadarTable | ExpiryTable | ContractTable

  /** `table:id`; an id of None spells `table:None`. */
  datatype SourceIdentity = RowIdentity(table: SourceTable, id: Option<int>) | OtherText(code: int) | BlankText

  datatype EntityType = ContractEntity | ExpiryEntity

  /** One anomaly. `family` is None outside the active families and `ticker` None when it is not
      text; `identity` and `evidenceDate` are ranks of their texts, None for the empty text. */
  datatype Anomaly = Anomaly(
    family: Option<Family>, ticker: Option<Ticker>, entity: EntityType, identity: Option<int>,
    source: SourceIdentity, qualifies: bool, evidenceDate: Option<Date>,
    triggerFirst: Option<Instant>, sourceFirst: Option<Instant>, localCaptured: Option<Instant>)

  // ---------------------------------------------------------------- grouping

  predicate Active(a: Anomaly) { a.family.Some? && a.ticker.Some? }

  predicate Of(a: Anomaly, ticker: Ticker) { a.family.Some? && a.ticker == Some(ticker) }

  function RankLeq(a: Option<int>, b: Option<int>): bool {
    a.None? || (b.Some? && a.value <= b.value)
  }

  /** Family order, then identity, then evidence date. */
  predicate AnomalyLeq(a: Anomaly, b: Anomaly) {
    var f := (x: Anomaly) => if x.family.Some? then FamilyOrder(x.family.value) else 3;
    || f(a) < f(b)
    || (f(a) == f(b) && a.identity != b.identity && RankLeq(a.identity, b.identity))
    || (f(a) == f(b) && a.identity == b.identity && RankLeq(a.evidenceDate, b.evidenceDate))
  }

  function TickersSeen(anomalies: seq<Anomaly>): seq<Ticker> {
    if anomalies == [] then []
    else
      var ts, a := TickersSeen(anomalies[..|anomalies| - 1]), anomalies[|anomalies| - 1];
      if Active(a) && a.ticker.value !in ts then ts + [a.ticker.value] else ts
  }

  predicate TickerLeq(a: Ticker, b: Ticker) { a <= b }

  /** The anomalies of one ticker, in projection order. */
  function AnomaliesOf(anomalies: seq<Anomaly>, ticker: Ticker): seq<Anomaly> {
    StableSort(AnomalyLeq, Filter(anomalies, (a: Anomaly) => Of(a, ticker)))
  }

  function Qualifying(anomalies: seq<Anomaly>): seq<Anomaly> {
    Filter(anomalies, (a: Anomaly) => a.qualifies)
  }

  predicate HasFamily(anomalies: seq<Anomaly>, f: Family) {
    exists i :: 0 <= i < |anomalies| && anomalies[i].family == Some(f)
  }

  datatype Projection = Projection(ticker: Ticker, sources: seq<Family>, qualifyingCount: nat, anomalies: seq<Anomaly>)

  function ProjectionFor(anomalies: seq<Anomaly>, ticker: Ticker): seq<Projection> {
    var rows := AnomaliesOf(anomalies, ticker);
    var qualifying := Qualifying(rows);
    if qualifying == [] then []
    else [Projection(ticker, Filter(ACTIVE_FAMILIES, f => HasFamily(qualifying, f)), |qualifying|, rows)]
  }

  /** What `project` yields for every ticker, in order. */
  function Collected(tickers: seq<Ticker>, project: Ticker -> seq<Projection>): seq<Projection> {
    if tickers == [] then []
    else Collected(tickers[..|tickers| - 1], project) + project(tickers[|tickers| - 1])
  }

  function ProjectionsFor(anomalies: seq<Anomaly>, tickers: seq<Ticker>): seq<Projection> {
    Collected(tickers, t => ProjectionFor(anomalies, t))
  }

  function Projections(anomalies: seq<Anomaly>): seq<Projection> {
    ProjectionsFor(anomalies, StableSort(TickerLeq, TickersSeen(anomalies)))
  }

  method GroupProductCandidates(anomalies: seq<Anomaly>) returns (projections: seq<Projection>)
    ensures projections == Projections(anomalies)
  {
    var grouped: map<Ticker, seq<Anomaly>> := map[];
    var keys: seq<Ticker> := [];
    for i := 0 to |anomalies|
      invariant keys == TickersSeen(anomalies[..i])
      invariant forall t :: t in grouped <==> t in keys
      invariant forall t :: t in grouped ==> grouped[t] == Filter(anomalies[..i], (a: Anomaly) => Of(a, t))
      invariant forall t :: t !in grouped ==> Filter(anomalies[..i], (a: Anomaly) => Of(a, t)) == []
    {
      assert anomalies[..i + 1][..i] == anomalies[..i];
      if Active(anomalies[i]) {
        var t := anomalies[i].ticker.value;
        if t !in grouped {
          keys := keys + [t];
          grouped := grouped[t := []];
        }
        grouped := grouped[t := grouped[t] + [anomalies[i]]];
      }
    }
    assert anomalies[..|anomalies|] == anomalies;
    SortDistinct(TickerLeq, keys);
    forall j | 0 <= j < |keys|
      ensures GroupHolds(anomalies, grouped, StableSort(TickerLeq, keys)[j])
    {
      assert StableSort(TickerLeq, keys)[j] in StableSort(TickerLeq, keys);
    }
    projections := ProjectGroups(anomalies, grouped, StableSort(TickerLeq, keys));
  }

  predicate GroupHolds(anomalies: seq<Anomaly>, grouped: map<Ticker, seq<Anomaly>>, t: Ticker) {
    t in grouped && grouped[t] == Filter(anomalies, (a: Anomaly) => Of(a, t))
  }

  method ProjectGroups(anomalies: seq<Anomaly>, grouped: map<Ticker, seq<Anomaly>>, tickers: seq<Ticker>)
    returns (projections: seq<Projection>)
    requires forall j :: 0 <= j < |tickers| ==> GroupHolds(anomalies, grouped, tickers[j])
    ensures projections == ProjectionsFor(anomalies, tickers)
  {
    projections := [];
    for j := 0 to |tickers|
      invariant projections == ProjectionsFor(anomalies, tickers[..j])
    {
      assert tickers[..j + 1][..j] == tickers[..j] && GroupHolds(anomalies, grouped, tickers[j]);
      var rows := StableSort(AnomalyLeq, grouped[tickers[j]]);
      var qualifying := Qualifying(rows);
      if qualifying == [] {
        continue;
      }
      projections := projections
        + [Projection(tickers[j], Filter(ACTIVE_FAMILIES, f => HasFamily(qualifying, f)), |qualifying|, rows)];
    }
    assert tickers[..|tickers|] == tickers;
  }

  // ---------------------------------------------------------------- what the projections say

  ghost predicate Holds(anomalies: seq<Anomaly>, t: Ticker) { exists a :: a in anomalies && Of(a, t) }

  ghost predicate HoldsQualifying(anomalies: seq<Anomaly>, t: Ticker) {
    exists a :: a in anomalies && Of(a, t) && a.qualifies
  }

  lemma {:induction false} TickersSeenFacts(anomalies: seq<Anomaly>)
    ensures Distinct(TickersSeen(anomalies))
    ensures forall t :: t in TickersSeen(anomalies) <==> Holds(anomalies, t)
  {
    if anomalies != [] {
      var front, last := anomalies[..|anomalies| - 1], anomalies[|anomalies| - 1];
      TickersSeenFacts(front);
      assert anomalies == front + [last];
      forall t
        ensures t in TickersSeen(anomalies) <==> Holds(anomalies, t)
      {
        if Holds(front, t) {
          var a :| a in front && Of(a, t);
          assert a in anomalies;
        }
        if t in TickersSeen(anomalies) && t !in TickersSeen(front) {
          assert last in anomalies && Of(last, t);
        }
      }
    }
  }

  lemma AnomaliesOfFacts(anomalies: seq<Anomaly>, t: Ticker)
    ensures forall a :: a in AnomaliesOf(anomalies, t) <==> a in anomalies && Of(a, t)
    ensures Qualifying(AnomaliesOf(anomalies, t)) != [] <==> HoldsQualifying(anomalies, t)
  {
    var rows := AnomaliesOf(anomalies, t);
    FilterMembers(anomalies, (a: Anomaly) => Of(a, t));
    SortDistinct(AnomalyLeq, Filter(anomalies, (a: Anomaly) => Of(a, t)));
    FilterMembers(rows, (a: Anomaly) => a.qualifies);
    if Qualifying(rows) != [] {
      assert Qualifying(rows)[0] in Qualifying(rows);
    }
    if HoldsQualifying(anomalies, t) {
      var a :| a in anomalies && Of(a, t) && a.qualifies;
      assert a in Qualifying(rows);
    }
  }

  ghost predicate TickersAscend(ps: seq<Projection>) {
    forall i, j :: 0 <= i < j < |ps| ==> ps[i].ticker < ps[j].ticker
  }

  ghost predicate TickersStrict(ts: seq<Ticker>) {
    forall i, j :: 0 <= i < j < |ts| ==> ts[i] < ts[j]
  }

  /** At most one projection a ticker, under its own name. */
  ghost predicate OwnProjection(project: Ticker -> seq<Projection>, t: Ticker) {
    project(t) == [] || (|project(t)| == 1 && project(t)[0].ticker == t)
  }

  lemma {:induction false} CollectedMembers(ts: seq<Ticker>, project: Ticker -> seq<Projection>)
    requires forall t :: OwnProjection(project, t)
    ensures forall p :: p in Collected(ts, project) <==> p.ticker in ts && p in project(p.ticker)
  {
    if ts != [] {
      var front, last := ts[..|ts| - 1], ts[|ts| - 1];
      CollectedMembers(front, project);
      assert ts == front + [last] && OwnProjection(project, last);
      forall p
        ensures p in Collected(ts, project) <==> p.ticker in ts && p in project(p.ticker)
      {
        assert p in project(last) ==> p.ticker == last;
      }
    }
  }

  lemma {:induction false} CollectedAscend(ts: seq<Ticker>, project: Ticker -> seq<Projection>)
    requires TickersStrict(ts) && forall t :: OwnProjection(project, t)
    ensures TickersAscend(Collected(ts, project))
  {
    if ts != [] {
      var front, last := ts[..|ts| - 1], ts[|ts| - 1];
      CollectedAscend(front, project);
      CollectedMembers(front, project);
      assert OwnProjection(project, last);
      var before := Collected(front, project);
      forall i | 0 <= i < |before|
        ensures before[i].ticker < last
      {
        assert before[i] in before;
        var k :| 0 <= k < |front| && front[k] == before[i].ticker;
        assert ts[k] == front[k];
      }
    }
  }

  lemma ProjectionsForFacts(anomalies: seq<Anomaly>, ts: seq<Ticker>)
    requires TickersStrict(ts)
    ensures TickersAscend(ProjectionsFor(anomalies, ts))
    ensures forall p :: p in ProjectionsFor(anomalies, ts) <==> p.ticker in ts && p in ProjectionFor(anomalies, p.ticker)
  {
    var project := t => ProjectionFor(anomalies, t);
    forall t
      ensures OwnProjection(project, t)
    {
    }
    CollectedMembers(ts, project);
    CollectedAscend(ts, project);
  }

  lemma SortedTickersFacts(anomalies: seq<Anomaly>)
    ensures TickersStrict(StableSort(TickerLeq, TickersSeen(anomalies)))
    ensures forall t :: t in StableSort(TickerLeq, TickersSeen(anomalies)) <==> Holds(anomalies, t)
  {
    var seen := TickersSeen(anomalies);
    TickersSeenFacts(anomalies);
    SortDistinct(TickerLeq, seen);
    SortKeeps(TickerLeq, seen);
    var ts := StableSort(TickerLeq, seen);
    forall i, j | 0 <= i < j < |ts|
      ensures ts[i] < ts[j]
    {
      assert TickerLeq(ts[i], ts[j]);
    }
  }

  ghost predicate Projected(ps: seq<Projection>, t: Ticker) { exists p :: p in ps && p.ticker == t }

  lemma ProjectedIff(anomalies: seq<Anomaly>, t: Ticker)
    ensures HoldsQualifying(anomalies, t) <==> Projected(Projections(anomalies), t)
  {
    var ts := StableSort(TickerLeq, TickersSeen(anomalies));
    SortedTickersFacts(anomalies);
    ProjectionsForFacts(anomalies, ts);
    AnomaliesOfFacts(anomalies, t);
    if HoldsQualifying(anomalies, t) {
      var a :| a in anomalies && Of(a, t) && a.qualifies;
      assert Holds(anomalies, t);
      var own := ProjectionFor(anomalies, t);
      assert own[0] in own && own[0].ticker == t;
      assert own[0] in Projections(anomalies);
    }
  }

  lemma ProjectionHolds(anomalies: seq<Anomaly>, p: Projection)
    requires p in Projections(anomalies)
    ensures p.anomalies == AnomaliesOf(anomalies, p.ticker) && Qualifying(p.anomalies) != []
    ensures forall a :: a in p.anomalies <==> a in anomalies && Of(a, p.ticker)
  {
    SortedTickersFacts(anomalies);
    ProjectionsForFacts(anomalies, StableSort(TickerLeq, TickersSeen(anomalies)));
    AnomaliesOfFacts(anomalies, p.ticker);
  }

  /** One projection per ticker that has a qualifying active anomaly, tickers ascending; each holds
      every active anomaly of its ticker and at least one of them qualifies. */
  lemma ProjectionMeaning(anomalies: seq<Anomaly>)
    ensures TickersAscend(Projections(anomalies))
    ensures forall t :: HoldsQualifying(anomalies, t) <==> Projected(Projections(anomalies), t)
    ensures forall p :: p in Projections(anomalies) ==>
      && Qualifying(p.anomalies) != []
      && (forall a :: a in p.anomalies <==> a in anomalies && Of(a, p.ticker))
  {
    SortedTickersFacts(anomalies);
    ProjectionsForFacts(anomalies, StableSort(TickerLeq, TickersSeen(anomalies)));
    forall t
      ensures HoldsQualifying(anomalies, t) <==> Projected(Projections(anomalies), t)
    {
      ProjectedIff(anomalies, t);
    }
    forall p | p in Projections(anomalies)
      ensures Qualifying(p.anomalies) != [] && forall a :: a in p.anomalies <==> a in anomalies && Of(a, p.ticker)
    {
      ProjectionHolds(anomalies, p);
    }
  }

  /** Grouping keeps every occurrence: a projection's anomalies are a permutation of its ticker's. */
  lemma GroupingKeepsOccurrences(anomalies: seq<Anomaly>, t: Ticker)
    ensures multiset(AnomaliesOf(anomalies, t)) == multiset(Filter(anomalies, (a: Anomaly) => Of(a, t)))
    ensures SortedBy(AnomalyLeq, AnomaliesOf(anomalies, t))
  {
    SortKeeps(AnomalyLeq, Filter(anomalies, (a: Anomaly) => Of(a, t)));
  }

  // ---------------------------------------------------------------- the pool

  datatype Times = Times(sourceFirst: Option<Instant>, localCaptured: Option<Instant>)

  datatype RadarRow = RadarRow(id: int, ticker: Ticker, identity: int, date: Option<Date>, capturedAt: Option<Instant>, times: Times)

  datatype ActivityRow = ActivityRow(id: int, ticker: Ticker, identity: int, date: Option<Date>, observedAt: Instant, times: Times)

  /** Raw-payload times of each persistence row, looked up by row id. */
  type TimesOf = int -> Times

  function RadarAnomaly(row: RadarRow): Anomaly {
    Anomaly(Some(RadarEvent), Some(row.ticker), ContractEntity, Some(row.identity), RowIdentity(RadarTable, Some(row.id)),
            true, row.date, if row.capturedAt.Some? then row.capturedAt else row.times.localCaptured,
            row.times.sourceFirst, row.times.localCaptured)
  }

  function ActivityAnomaly(row: ActivityRow): Anomaly {
    Anomaly(Some(ExpiryActivity), Some(row.ticker), ExpiryEntity, Some(row.identity), RowIdentity(ExpiryTable, Some(row.id)),
            true, row.date, Some(row.observedAt), row.times.sourceFirst, row.times.localCaptured)
  }

  function PersistenceAnomaly(policy: Policy, analysis: Option<Date>, times: TimesOf, row: Observation): Anomaly {
    Anomaly(Some(ContractPersistence), Some(row.ticker), ContractEntity, row.symbol, RowIdentity(ContractTable, Some(row.id)),
            PublicAssessment(policy, row, analysis).eligible, row.windowLast, row.observedAt,
            times(row.id).sourceFirst, times(row.id).localCaptured)
  }

  function Mapped<S, T>(s: seq<S>, f: S -> T): (r: seq<T>)
    ensures |r| == |s| && forall i :: 0 <= i < |s| ==> r[i] == f(s[i])
  {
    if s == [] then [] else Mapped(s[..|s| - 1], f) + [f(s[|s| - 1])]
  }

  /** `vnext_anomaly_pool`: every radar row, every activity row, every persistence row. */
  function Pool(
      radar: seq<RadarRow>, activity: seq<ActivityRow>, persistent: seq<Observation>,
      policy: Policy, analysis: Option<Date>, times: TimesOf): seq<Anomaly>
  {
    Mapped(radar, RadarAnomaly) + Mapped(activity, ActivityAnomaly)
    + Mapped(persistent, (row: Observation) => PersistenceAnomaly(policy, analysis, times, row))
  }

  ghost predicate Triggered(
      radar: seq<RadarRow>, activity: seq<ActivityRow>, persistent: seq<Observation>,
      policy: Policy, analysis: Date, t: Ticker)
  {
    || (exists i :: 0 <= i < |radar| && radar[i].ticker == t)
    || (exists i :: 0 <= i < |activity| && activity[i].ticker == t)
    || (exists i :: 0 <= i < |persistent| && persistent[i].ticker == t && Admissible(policy, persistent[i], analysis))
  }

  lemma HoldsInParts(a: seq<Anomaly>, b: seq<Anomaly>, t: Ticker)
    ensures HoldsQualifying(a + b, t) <==> HoldsQualifying(a, t) || HoldsQualifying(b, t)
  {
    forall x
      ensures x in a + b <==> x in a || x in b
    {
    }
  }

  lemma HoldsInMapped<S>(s: seq<S>, f: S -> Anomaly, t: Ticker)
    ensures HoldsQualifying(Mapped(s, f), t) <==> exists i :: 0 <= i < |s| && Of(f(s[i]), t) && f(s[i]).qualifies
  {
    var r := Mapped(s, f);
    if HoldsQualifying(r, t) {
      var a :| a in r && Of(a, t) && a.qualifies;
      var i :| 0 <= i < |r| && r[i] == a;
      assert Of(f(s[i]), t);
    }
    if i :| 0 <= i < |s| && Of(f(s[i]), t) && f(s[i]).qualifies {
      assert r[i] in r;
    }
  }

  lemma PoolQualifies(
      radar: seq<RadarRow>, activity: seq<ActivityRow>, persistent: seq<Observation>,
      policy: Policy, analysis: Date, times: TimesOf, t: Ticker)
    ensures HoldsQualifying(Pool(radar, activity, persistent, policy, Some(analysis), times), t)
       <==> Triggered(radar, activity, persistent, policy, analysis, t)
  {
    var f := (row: Observation) => PersistenceAnomaly(policy, Some(analysis), times, row);
    HoldsInParts(Mapped(radar, RadarAnomaly) + Mapped(activity, ActivityAnomaly), Mapped(persistent, f), t);
    HoldsInParts(Mapped(radar, RadarAnomaly), Mapped(activity, ActivityAnomaly), t);
    HoldsInMapped(radar, RadarAnomaly, t);
    HoldsInMapped(activity, ActivityAnomaly, t);
    HoldsInMapped(persistent, f, t);
    forall i | 0 <= i < |persistent|
      ensures f(persistent[i]).qualifies <==> Admissible(policy, persistent[i], analysis)
      ensures Of(f(persistent[i]), t) <==> persistent[i].ticker == t
    {
      PublicAgreesWithSelection(policy, persistent[i], analysis);
    }
    forall i | 0 <= i < |radar|
      ensures Of(RadarAnomaly(radar[i]), t) <==> radar[i].ticker == t
    {
    }
    forall i | 0 <= i < |activity|
      ensures Of(ActivityAnomaly(activity[i]), t) <==> activity[i].ticker == t
    {
    }
  }

  /** A ticker becomes a product candidate exactly when it has a material radar row, an eligible
      activity row or a persistence row admissible on the analysis date. */
  lemma CandidateIffTriggered(
      radar: seq<RadarRow>, activity: seq<ActivityRow>, persistent: seq<Observation>,
      policy: Policy, analysis: Date, times: TimesOf, t: Ticker)
    ensures Projected(Projections(Pool(radar, activity, persistent, policy, Some(analysis), times)), t)
       <==> Triggered(radar, activity, persistent, policy, analysis, t)
  {
    PoolQualifies(radar, activity, persistent, policy, analysis, times, t);
    ProjectedIff(Pool(radar, activity, persistent, policy, Some(analysis), times), t);
  }
}
