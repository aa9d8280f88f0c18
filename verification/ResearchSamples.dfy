/** Candidates, frozen baselines and the foundation of one research sample. */
module ResearchSamples {
  import opened Prelude
  import opened TradingCalendar
  import opened ForwardOutcome

  datatype EvidenceFamily = RadarEvent | ExpiryActivity | ContractPersistence

  /** `dte` is the tenor of the trigger's source observation, None when that row is absent. */
  datatype Trigger = Trigger(
    id: int, family: EvidenceFamily, qualifies: bool, presentAtFirstKnowledge: bool, dte: Option<int>)

  datatype ProductCandidate = ProductCandidate(
    id: int, scanRunId: int, ticker: Ticker, firstKnowledge: Instant, triggers: seq<Trigger>)

  /** `trigger` is the persisted scan trigger, stripped and lower-cased. */
  datatype ScanRun = ScanRun(id: int, trigger: string)

  datatype EvaluationKind = FirstKnowledgeBaseline | Refresh

  datatype Baseline = Baseline(
    id: int, candidateId: int, kind: EvaluationKind, firstKnowledge: Instant, evaluatedAt: Instant)

  // ---------------------------------------------------------------- run origin

  datatype RunOrigin =
    | CanonicalScheduledProduction | Manual | ControlledObservation | Diagnostic
    | Remediation | DeveloperRerun | OtherNonCanonical

  function ClassifyScanOrigin(trigger: string): RunOrigin {
    if trigger == "scheduled_daily" then CanonicalScheduledProduction
    else if trigger == "cli" then Manual
    else if trigger == "dashboard" || trigger == "controlled" then ControlledObservation
    else if trigger == "diagnostic" || trigger == "test" then Diagnostic
    else if trigger == "remediation" then Remediation
    else if trigger == "developer_rerun" then DeveloperRerun
    else OtherNonCanonical
  }

  // ---------------------------------------------------------------- cohort

  datatype DteBucket = VeryShort | Short | Medium | Long

  function BucketForDte(dte: int): Option<DteBucket> {
    if 0 <= dte <= 7 then Some(VeryShort)
    else if 8 <= dte <= 30 then Some(Short)
    else if 31 <= dte <= 90 then Some(Medium)
    else if 91 <= dte <= 180 then Some(Long)
    else None
  }

  datatype RouteComposition =
    | RadarOnly | ExpiryOnly | PersistenceOnly
    | RadarExpiry | RadarPersistence | ExpiryPersistence | RadarExpiryPersistence

  function RouteOf(radar: bool, expiry: bool, persistence: bool): Option<RouteComposition> {
    if radar && expiry && persistence then Some(RadarExpiryPersistence)
    else if radar && expiry then Some(RadarExpiry)
    else if radar && persistence then Some(RadarPersistence)
    else if expiry && persistence then Some(ExpiryPersistence)
    else if radar then Some(RadarOnly)
    else if expiry then Some(ExpiryOnly)
    else if persistence then Some(PersistenceOnly)
    else None
  }

  datatype CohortMetadata = CohortMetadata(
    hasRadar: bool, hasExpiryActivity: bool, hasContractPersistence: bool,
    route: Option<RouteComposition>, qualifyingCount: nat, bucketCounts: map<DteBucket, nat>)

  predicate Qualifying(t: Trigger) { t.qualifies && t.presentAtFirstKnowledge }

  predicate HasFamily(triggers: seq<Trigger>, f: EvidenceFamily) {
    exists i :: 0 <= i < |triggers| && triggers[i].family == f
  }

  function TriggerBucket(t: Trigger): Option<DteBucket> {
    if t.dte.Some? then BucketForDte(t.dte.value) else None
  }

  function InBucket(triggers: seq<Trigger>, b: DteBucket): nat {
    |Filter(triggers, t => TriggerBucket(t) == Some(b))|
  }

  function Cohort(triggers: seq<Trigger>): CohortMetadata {
    var qualifying := Filter(triggers, t => Qualifying(t));
    var radar, expiry, persistence :=
      HasFamily(qualifying, RadarEvent), HasFamily(qualifying, ExpiryActivity), HasFamily(qualifying, ContractPersistence);
    CohortMetadata(radar, expiry, persistence, RouteOf(radar, expiry, persistence), |qualifying|,
      map b: DteBucket | InBucket(qualifying, b) > 0 :: InBucket(qualifying, b))
  }

  lemma FamilyStep(ts: seq<Trigger>, i: nat, f: EvidenceFamily)
    requires i < |ts|
    ensures HasFamily(ts[..i + 1], f) <==> HasFamily(ts[..i], f) || ts[i].family == f
  {
    var front, longer := ts[..i], ts[..i + 1];
    assert longer == front + [ts[i]] && longer[i] == ts[i];
    if HasFamily(front, f) {
      var k :| 0 <= k < |front| && front[k].family == f;
      assert longer[k].family == f;
    }
  }

  /** `counts` counts the triggers of each bucket. */
  ghost predicate Counts(counts: map<DteBucket, nat>, ts: seq<Trigger>) {
    && (forall b :: b in counts <==> InBucket(ts, b) > 0)
    && forall b :: b in counts ==> counts[b] == InBucket(ts, b)
  }

  lemma BucketStep(ts: seq<Trigger>, i: nat, counts: map<DteBucket, nat>)
    requires i < |ts| && Counts(counts, ts[..i])
    ensures var b := TriggerBucket(ts[i]);
      if b.None? then Counts(counts, ts[..i + 1])
      else Counts(counts[b.value := (if b.value in counts then counts[b.value] else 0) + 1], ts[..i + 1])
  {
    assert ts[..i + 1][..i] == ts[..i];
  }

  /** Counts the qualifying triggers one by one. */
  method CohortOf(triggers: seq<Trigger>) returns (cohort: CohortMetadata)
    ensures cohort == Cohort(triggers)
  {
    var qualifying := Filter(triggers, t => Qualifying(t));
    var radar, expiry, persistence := false, false, false;
    var counts: map<DteBucket, nat> := map[];
    for i := 0 to |qualifying|
      invariant radar == HasFamily(qualifying[..i], RadarEvent)
      invariant expiry == HasFamily(qualifying[..i], ExpiryActivity)
      invariant persistence == HasFamily(qualifying[..i], ContractPersistence)
      invariant Counts(counts, qualifying[..i])
    {
      var t := qualifying[i];
      FamilyStep(qualifying, i, RadarEvent);
      FamilyStep(qualifying, i, ExpiryActivity);
      FamilyStep(qualifying, i, ContractPersistence);
      BucketStep(qualifying, i, counts);
      radar := radar || t.family == RadarEvent;
      expiry := expiry || t.family == ExpiryActivity;
      persistence := persistence || t.family == ContractPersistence;
      var bucket := TriggerBucket(t);
      if bucket.Some? {
        counts := counts[bucket.value := (if bucket.value in counts then counts[bucket.value] else 0) + 1];
      }
    }
    assert qualifying[..|qualifying|] == qualifying;
    cohort := CohortMetadata(radar, expiry, persistence, RouteOf(radar, expiry, persistence), |qualifying|, counts);
    assert counts == Cohort(triggers).bucketCounts;
  }

  /** A cohort has a route exactly when it has a qualifying trigger. */
  lemma RouteIffQualifying(triggers: seq<Trigger>)
    ensures Cohort(triggers).route.Some? <==> Cohort(triggers).qualifyingCount > 0
  {
    var qualifying := Filter(triggers, t => Qualifying(t));
    if |qualifying| > 0 { assert HasFamily(qualifying, qualifying[0].family); }
  }

  // ---------------------------------------------------------------- frozen baseline

  predicate BaselineLeq(a: Baseline, b: Baseline) {
    a.evaluatedAt < b.evaluatedAt || (a.evaluatedAt == b.evaluatedAt && a.id <= b.id)
  }

  predicate IsBaselineOf(b: Baseline, candidateId: int) {
    b.candidateId == candidateId && b.kind == FirstKnowledgeBaseline
  }

  /** The earliest first-knowledge baseline of the candidate. */
  function SelectFrozenBaseline(rows: seq<Baseline>, candidateId: int): Option<Baseline> {
    if rows == [] then None
    else
      var best, b := SelectFrozenBaseline(rows[..|rows| - 1], candidateId), rows[|rows| - 1];
      if IsBaselineOf(b, candidateId) && (best.None? || !BaselineLeq(best.value, b)) then Some(b) else best
  }

  lemma {:induction false} FrozenBaselineIsEarliest(rows: seq<Baseline>, candidateId: int)
    ensures match SelectFrozenBaseline(rows, candidateId)
      case None => forall b :: b in rows ==> !IsBaselineOf(b, candidateId)
      case Some(m) => m in rows && IsBaselineOf(m, candidateId)
                      && forall b :: b in rows && IsBaselineOf(b, candidateId) ==> BaselineLeq(m, b)
  {
    if rows != [] {
      FrozenBaselineIsEarliest(rows[..|rows| - 1], candidateId);
      assert rows == rows[..|rows| - 1] + [rows[|rows| - 1]];
    }
  }

  /** Once a candidate has a frozen baseline, baselines evaluated later never replace it. */
  lemma {:induction false} LaterBaselinesIgnored(rows: seq<Baseline>, more: seq<Baseline>, candidateId: int)
    requires SelectFrozenBaseline(rows, candidateId).Some?
    requires forall b :: b in more ==> SelectFrozenBaseline(rows, candidateId).value.evaluatedAt < b.evaluatedAt
    ensures SelectFrozenBaseline(rows + more, candidateId) == SelectFrozenBaseline(rows, candidateId)
  {
    if more == [] {
      assert rows + more == rows;
    } else {
      LaterBaselinesIgnored(rows, more[..|more| - 1], candidateId);
      assert (rows + more)[..|rows + more| - 1] == rows + more[..|more| - 1];
      assert (rows + more)[|rows + more| - 1] == more[|more| - 1];
    }
  }

  // ---------------------------------------------------------------- foundation

  datatype InvalidReason =
    | ScanRunIdentityMismatch
    | FrozenBaselineMissing
    | FrozenBaselineCandidateMismatch
    | FrozenBaselineKindInvalid
    | FrozenBaselineFirstKnowledgeMismatch
    | NoQualifyingFirstKnowledgeTrigger

  datatype WindowKey = WindowKey(ticker: Ticker, plan: ForwardSessionPlan)

  /** One research sample's immutable values; it is VALID when `invalidReason` is None. */
  datatype Foundation = Foundation(
    candidateId: int, baselineId: Option<int>, scanRunId: int, ticker: Ticker, firstKnowledge: Instant,
    invalidReason: Option<InvalidReason>, origin: RunOrigin, originTrigger: string, primaryEligible: bool,
    sessions: ForwardSessionPlan, windowKey: WindowKey, cohort: CohortMetadata)

  function SampleInvalidReason(candidate: ProductCandidate, run: ScanRun, baseline: Option<Baseline>)
    : Option<InvalidReason>
  {
    if candidate.scanRunId != run.id then Some(ScanRunIdentityMismatch)
    else if baseline.None? then Some(FrozenBaselineMissing)
    else if baseline.value.candidateId != candidate.id then Some(FrozenBaselineCandidateMismatch)
    else if baseline.value.kind != FirstKnowledgeBaseline then Some(FrozenBaselineKindInvalid)
    else if baseline.value.firstKnowledge != candidate.firstKnowledge then Some(FrozenBaselineFirstKnowledgeMismatch)
    else None
  }

  function BuildFoundation(
      c: Calendar, candidate: ProductCandidate, run: ScanRun, baseline: Option<Baseline>, sameDayKnown: bool)
    : Foundation
  {
    var cohort := Cohort(candidate.triggers);
    var identity := SampleInvalidReason(candidate, run, baseline);
    var invalid := if cohort.qualifyingCount == 0 && identity.None? then Some(NoQualifyingFirstKnowledgeTrigger) else identity;
    var origin := ClassifyScanOrigin(run.trigger);
    var sessions := MapForwardSessions(c, candidate.firstKnowledge, sameDayKnown);
    Foundation(
      candidate.id, if baseline.Some? then Some(baseline.value.id) else None, run.id, candidate.ticker,
      candidate.firstKnowledge, invalid, origin, run.trigger,
      invalid.None? && origin == CanonicalScheduledProduction,
      sessions, WindowKey(candidate.ticker, sessions), cohort)
  }

  /** The table's check constraints on one sample. */
  predicate SampleChecks(f: Foundation) {
    && (f.invalidReason.None? ==> f.baselineId.Some?)
    && (f.primaryEligible ==> f.origin == CanonicalScheduledProduction && f.invalidReason.None?)
    && (f.invalidReason.None? ==> f.cohort.qualifyingCount > 0 && f.cohort.route.Some?)
    && f.sessions.referenceSession < f.sessions.t1Session < f.sessions.t3Session < f.sessions.t5Session
  }

  lemma FoundationMeetsChecks(
      c: Calendar, candidate: ProductCandidate, run: ScanRun, baseline: Option<Baseline>, known: bool)
    requires ValidCalendar(c)
    ensures SampleChecks(BuildFoundation(c, candidate, run, baseline, known))
  {
    RouteIffQualifying(candidate.triggers);
    PlanIsOrderedAndCausal(c, candidate.firstKnowledge, known);
  }

  /** Rebuilding a foundation from other evidence reproduces it exactly when the frozen baseline
      is the same one and the same-day proof either agrees or, before the close, cannot matter. */
  lemma FoundationStableIff(
      c: Calendar, candidate: ProductCandidate, run: ScanRun,
      baseline: Option<Baseline>, baseline': Option<Baseline>, known: bool, known': bool)
    requires ValidCalendar(c)
    requires baseline.Some? && baseline'.Some? && baseline.value.id == baseline'.value.id ==> baseline == baseline'
    ensures BuildFoundation(c, candidate, run, baseline, known) == BuildFoundation(c, candidate, run, baseline', known')
       <==> baseline == baseline' && (known == known' || !PostClose(c, candidate.firstKnowledge))
  {
    ProofMovesReference(c, candidate.firstKnowledge);
  }
}
