/** What the application's own anomaly pool guarantees of the candidates materialized from it. */
module CandidatePool {
  import opened Prelude
  import opened TradingCalendar
  import opened CurrentPersistence
  import opened CandidateGrouping
  import opened CandidateMaterialization
  import opened CandidateHistory

  /** The rows a scan reads, with unique primary keys in each table. */
  ghost predicate DistinctRadar(radar: seq<RadarRow>) { forall i, j :: 0 <= i < j < |radar| ==> radar[i].id != radar[j].id }

  ghost predicate DistinctActivity(activity: seq<ActivityRow>) {
    forall i, j :: 0 <= i < j < |activity| ==> activity[i].id != activity[j].id
  }

  ghost predicate DistinctEvidence(rows: seq<Observation>) { forall i, j :: 0 <= i < j < |rows| ==> rows[i].id != rows[j].id }

  /** Rows with one id are one row. */
  ghost predicate PrimaryKey(rows: seq<Observation>) {
    forall a, b :: a in rows && b in rows && a.id == b.id ==> a == b
  }

  /** One row a contract means no row twice: the evidence of a scan has distinct ids. */
  lemma EvidenceIsDistinct(
      policy: Policy, universe: set<Ticker>, store: seq<Observation>, analytics: seq<Observation>,
      analysis: Option<Date>, cutoff: Option<Instant>)
    requires PrimaryKey(store + analytics)
    ensures DistinctEvidence(WithAnalytics(CurrentTriggers(policy, universe, store, analysis, cutoff), analytics, cutoff))
  {
    var triggers := CurrentTriggers(policy, universe, store, analysis, cutoff);
    TriggersAreStored(policy, universe, store, analysis, cutoff);
    EvidenceMeaning(triggers, analytics, cutoff);
    var rows := WithAnalytics(triggers, analytics, cutoff);
    forall i, j | 0 <= i < j < |rows|
      ensures rows[i].id != rows[j].id
    {
      assert rows[i] in rows && rows[j] in rows;
      assert rows[i] in store + analytics && rows[j] in store + analytics;
      assert !SameContract(rows[i], rows[j]);
    }
  }

  lemma TriggersAreStored(
      policy: Policy, universe: set<Ticker>, store: seq<Observation>, analysis: Option<Date>, cutoff: Option<Instant>)
    ensures var triggers := CurrentTriggers(policy, universe, store, analysis, cutoff);
      OnePerContract(triggers) && forall r :: r in triggers ==> r in store
  {
    if analysis.Some? {
      var queried := (row: Observation) => Queried(policy, universe, analysis.value, cutoff, row);
      FilterMembers(store, queried);
      SortDistinct(NewerFirst, Filter(store, queried));
      SelectedAreAdmissible(policy, analysis.value, StableSort(NewerFirst, Filter(store, queried)));
    }
  }

  // ---------------------------------------------------------------- keys of the pool

  /** Every anomaly of the pool has an active family and names its source row. */
  predicate Identified(a: Anomaly) { a.family.Some? && a.ticker.Some? && Authoritative(a.source) }

  ghost predicate AllIdentified(s: seq<Anomaly>) { forall a :: a in s ==> Identified(a) }

  lemma MappedKeys<S>(s: seq<S>, f: S -> Anomaly)
    requires forall i, j :: 0 <= i < j < |s| ==> !SameKey(f(s[i]), f(s[j]))
    ensures KeysDiffer(Mapped(s, f))
  {
  }

  lemma JoinedKeys(a: seq<Anomaly>, b: seq<Anomaly>)
    requires KeysDiffer(a) && KeysDiffer(b) && forall i, j :: 0 <= i < |a| && 0 <= j < |b| ==> !SameKey(a[i], b[j])
    ensures KeysDiffer(a + b)
  {
  }

  /** The pool's (family, source) keys never clash. */
  lemma PoolKeysDiffer(
      radar: seq<RadarRow>, activity: seq<ActivityRow>, persistent: seq<Observation>,
      policy: Policy, analysis: Option<Date>, times: TimesOf)
    requires DistinctRadar(radar) && DistinctActivity(activity) && DistinctEvidence(persistent)
    ensures var pool := Pool(radar, activity, persistent, policy, analysis, times);
      KeysDiffer(pool) && AllIdentified(pool)
  {
    var f := (row: Observation) => PersistenceAnomaly(policy, analysis, times, row);
    var a, b, c := Mapped(radar, RadarAnomaly), Mapped(activity, ActivityAnomaly), Mapped(persistent, f);
    MappedKeys(radar, RadarAnomaly);
    MappedKeys(activity, ActivityAnomaly);
    MappedKeys(persistent, f);
    JoinedKeys(a, b);
    assert forall i :: 0 <= i < |a + b| ==> (a + b)[i].family != Some(ContractPersistence);
    JoinedKeys(a + b, c);
  }

  /** Keys that differ, without positions. */
  lemma KeysDifferIff(s: seq<Anomaly>)
    ensures KeysDiffer(s) <==> Distinct(s) && forall a, b :: a in s && b in s && a != b ==> !SameKey(a, b)
  {
    if KeysDiffer(s) {
      forall a, b | a in s && b in s && a != b
        ensures !SameKey(a, b)
      {
        var i :| 0 <= i < |s| && s[i] == a;
        var j :| 0 <= j < |s| && s[j] == b;
      }
    }
  }

  lemma OwnKeysDiffer(pool: seq<Anomaly>, ticker: Ticker)
    requires KeysDiffer(pool)
    ensures KeysDiffer(AnomaliesOf(pool, ticker))
  {
    var own := (a: Anomaly) => Of(a, ticker);
    KeysDifferIff(pool);
    FilterDistinct(pool, own);
    SortDistinct(AnomalyLeq, Filter(pool, own));
    AnomaliesOfFacts(pool, ticker);
    KeysDifferIff(AnomaliesOf(pool, ticker));
  }

  // ---------------------------------------------------------------- triggers from the pool

  /** With different keys and named sources nothing is dropped and nothing conflicts. */
  lemma {:induction false} NothingDropped(anomalies: seq<Anomaly>)
    requires KeysDiffer(anomalies) && AllIdentified(anomalies)
    ensures Deduplicate(anomalies) == Ok(anomalies)
  {
    if anomalies != [] {
      var front, last := anomalies[..|anomalies| - 1], anomalies[|anomalies| - 1];
      assert anomalies == front + [last];
      assert Identified(last);
      NothingDropped(front);
      ExistingMeaning(front, last);
    }
  }

  /** All times of the anomaly are known by the cutoff. */
  predicate KnownInTime(a: Anomaly, cutoff: Instant) {
    && a.triggerFirst.Some? && a.triggerFirst.value <= cutoff
    && (a.sourceFirst.Some? ==> a.sourceFirst.value <= cutoff)
    && (a.localCaptured.Some? ==> a.localCaptured.value <= cutoff)
  }

  lemma {:induction false} BuildOkIff(kept: seq<Anomaly>, cutoff: Instant)
    requires AllIdentified(kept)
    ensures BuildTriggers(kept, cutoff).Ok? <==> forall a :: a in kept ==> KnownInTime(a, cutoff)
  {
    if kept != [] {
      var front, last := kept[..|kept| - 1], kept[|kept| - 1];
      assert kept == front + [last] && Identified(last);
      BuildOkIff(front, cutoff);
      assert TriggerFor(last, cutoff).Ok? <==> KnownInTime(last, cutoff);
      assert forall a :: a in kept <==> a in front || a == last;
    }
  }

  /** A projection of the pool: it succeeds exactly when all its anomalies are known by the cutoff,
      then turns every one of them into a trigger, and one of those qualifies. */
  lemma ProjectionTriggers(pool: seq<Anomaly>, p: Projection, cutoff: Instant)
    requires KeysDiffer(pool) && AllIdentified(pool) && p in Projections(pool)
    ensures var r := TriggersFor(p.anomalies, cutoff);
      && (r.Ok? <==> forall a :: a in pool && Of(a, p.ticker) ==> KnownInTime(a, cutoff))
      && (r.Ok? ==> |r.value| == |p.anomalies| && HasQualifyingTrigger(r.value))
  {
    ProjectionHolds(pool, p);
    OwnKeysDiffer(pool, p.ticker);
    NothingDropped(p.anomalies);
    BuildOkIff(p.anomalies, cutoff);
    if TriggersFor(p.anomalies, cutoff).Ok? {
      BuildTriggersAt(p.anomalies, cutoff);
      FilterMembers(p.anomalies, (a: Anomaly) => a.qualifies);
      assert Qualifying(p.anomalies)[0] in Qualifying(p.anomalies);
      assert HasQualifier(p.anomalies);
      BuildKeepsQualifier(p.anomalies, cutoff);
    }
  }

  // ---------------------------------------------------------------- the first call

  /** Row `c` holds a trigger for every anomaly of its ticker, and one of them qualifies. */
  ghost predicate FullyTriggered(pool: seq<Anomaly>, c: ProductCandidate) {
    && |c.triggers| == |Filter(pool, (a: Anomaly) => Of(a, c.ticker))|
    && HasQualifyingTrigger(c.triggers)
  }

  lemma {:induction false} RowsAreTriggered(
      stored: seq<ProductCandidate>, run: Run, pool: seq<Anomaly>, ps: seq<Projection>, cutoff: Instant)
    requires KeysDiffer(pool) && AllIdentified(pool) && forall p :: p in ps ==> p in Projections(pool)
    requires NewRows(stored, run, ps, cutoff).Ok?
    ensures forall c :: c in NewRows(stored, run, ps, cutoff).value ==> FullyTriggered(pool, c)
  {
    if ps != [] {
      var front, p := ps[..|ps| - 1], ps[|ps| - 1];
      assert ps == front + [p];
      RowsAreTriggered(stored, run, pool, front, cutoff);
      ProjectionTriggers(pool, p, cutoff);
      ProjectionHolds(pool, p);
    }
  }

  /** The knowledge of every ticker with a projection precedes the cutoff. */
  ghost predicate ProjectedInTime(pool: seq<Anomaly>, cutoff: Instant) {
    forall a, t :: a in pool && Of(a, t) && HoldsQualifying(pool, t) ==> KnownInTime(a, cutoff)
  }

  lemma {:induction false} RowsOkIff(
      stored: seq<ProductCandidate>, run: Run, pool: seq<Anomaly>, ps: seq<Projection>, cutoff: Instant)
    requires KeysDiffer(pool) && AllIdentified(pool) && forall p :: p in ps ==> p in Projections(pool)
    requires TickersAscend(ps) && forall i :: 0 <= i < |stored| ==> stored[i].runId != run.id
    ensures NewRows(stored, run, ps, cutoff).Ok? <==> forall p :: p in ps ==> TriggersFor(p.anomalies, cutoff).Ok?
  {
    if ps != [] {
      var front, p := ps[..|ps| - 1], ps[|ps| - 1];
      assert ps == front + [p];
      RowsOkIff(stored, run, pool, front, cutoff);
      ProjectionHolds(pool, p);
      if NewRows(stored, run, front, cutoff).Ok? {
        NewRowsFollow(stored, run, front, cutoff);
        NotTaken(stored, NewRows(stored, run, front, cutoff).value, run.id, p.ticker);
      }
    }
  }

  lemma AllTriggersOkIff(pool: seq<Anomaly>, cutoff: Instant)
    requires KeysDiffer(pool) && AllIdentified(pool)
    ensures (forall p :: p in Projections(pool) ==> TriggersFor(p.anomalies, cutoff).Ok?) <==> ProjectedInTime(pool, cutoff)
  {
    forall p | p in Projections(pool)
      ensures TriggersFor(p.anomalies, cutoff).Ok? <==> forall a :: a in pool && Of(a, p.ticker) ==> KnownInTime(a, cutoff)
    {
      ProjectionTriggers(pool, p, cutoff);
    }
    ProjectionMeaning(pool);
    forall p | p in Projections(pool)
      ensures HoldsQualifying(pool, p.ticker)
    {
      assert Projected(Projections(pool), p.ticker);
    }
    if forall p :: p in Projections(pool) ==> TriggersFor(p.anomalies, cutoff).Ok? {
      forall a, t | a in pool && Of(a, t) && HoldsQualifying(pool, t)
        ensures KnownInTime(a, cutoff)
      {
        var p :| p in Projections(pool) && p.ticker == t;
      }
    }
  }

  /** The first call of a complete run on the pool of its own rows succeeds exactly when nothing about
      a triggered ticker is known later than the cutoff, and then every candidate has a trigger for
      each anomaly of its ticker and a qualifying one among them. */
  lemma PoolCandidatesQualify(
      s: State, at: Instant, radar: seq<RadarRow>, activity: seq<ActivityRow>, persistent: seq<Observation>,
      policy: Policy, analysis: Option<Date>, times: TimesOf)
    requires DistinctRadar(radar) && DistinctActivity(activity) && DistinctEvidence(persistent)
    requires ValidState(s) && s.run.status == Complete && s.run.completedAt == Some(at) && s.run.marker.at.None?
    ensures var pool := Pool(radar, activity, persistent, policy, analysis, times);
      var o := Step(s, at, pool);
      && (o.result.Ok? <==> ProjectedInTime(pool, at))
      && (o.result.Ok? ==> forall c :: c in o.result.value ==> FullyTriggered(pool, c))
  {
    var pool := Pool(radar, activity, persistent, policy, analysis, times);
    PoolKeysDiffer(radar, activity, persistent, policy, analysis, times);
    ProjectionMeaning(pool);
    NoRowsOfRun(s);
    RowsOkIff(s.candidates, s.run, pool, Projections(pool), at);
    AllTriggersOkIff(pool, at);
    if Step(s, at, pool).result.Ok? { RowsAreTriggered(s.candidates, s.run, pool, Projections(pool), at); }
  }
}
