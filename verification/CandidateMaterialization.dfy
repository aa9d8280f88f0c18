/** Exactly-once materialization of a successful scan's product candidates. */
module CandidateMaterialization {
  import opened Prelude
  import opened TradingCalendar
  import opened CandidateGrouping

  type RuleVersion = int

  const MATERIALIZATION_RULE_VERSION: RuleVersion := 1

  /** The rule hash is injective in what it hashes, so it is modelled by it. */
  datatype RuleHash = RuleHash(rule: RuleVersion, specification: int, configuration: int)

  datatype RunStatus = Complete | OtherStatus(code: int)

  datatype Marker = Marker(at: Option<Instant>, version: Option<RuleVersion>, hash: Option<RuleHash>)

  datatype Run = Run(
    id: int, status: RunStatus, completedAt: Option<Instant>, specification: int, configuration: int, marker: Marker)

  datatype Trigger = Trigger(
    family: Family, entity: EntityType, identity: Option<int>, source: SourceIdentity, qualifies: bool,
    eventDate: Option<Date>, triggerFirst: Instant, sourceFirst: Option<Instant>, localCaptured: Option<Instant>)

  datatype ProductCandidate = ProductCandidate(
    id: int, runId: int, ticker: Ticker, firstKnowledge: Instant, version: RuleVersion, hash: RuleHash,
    createdAt: Instant, triggers: seq<Trigger>)

  datatype Error =
    | CutoffMismatch | OrphanRows | NoQualifyingTrigger | StorageConflict
    | ForbiddenFamily | UnidentifiedSource | ConflictingReplay
    | MissingFirstKnowledge | FutureTrigger | FutureReceipt | FutureCapture
    | IncompleteMarker | OtherRuleVersion | RuleConflict | IdentityConflict

  function HashFor(run: Run): RuleHash {
    RuleHash(MATERIALIZATION_RULE_VERSION, run.specification, run.configuration)
  }

  // ---------------------------------------------------------------- triggers

  predicate Authoritative(s: SourceIdentity) {
    !s.BlankText? && !(s.RowIdentity? && s.id.None?)
  }

  predicate SameKey(a: Anomaly, b: Anomaly) { a.family == b.family && a.source == b.source }

  predicate SameTrigger(a: Anomaly, b: Anomaly) {
    && a.entity == b.entity && a.identity == b.identity
    && a.sourceFirst == b.sourceFirst && a.triggerFirst == b.triggerFirst
  }

  /** The anomaly already kept under the key of `a`. */
  function Existing(kept: seq<Anomaly>, a: Anomaly): Option<Anomaly> {
    if kept == [] then None
    else if SameKey(kept[|kept| - 1], a) then Some(kept[|kept| - 1])
    else Existing(kept[..|kept| - 1], a)
  }

  function AddAnomaly(kept: seq<Anomaly>, a: Anomaly): Result<seq<Anomaly>, Error> {
    if a.family.None? then Err(ForbiddenFamily)
    else if !Authoritative(a.source) then Err(UnidentifiedSource)
    else
      var existing := Existing(kept, a);
      if existing.None? then Ok(kept + [a])
      else if SameTrigger(existing.value, a) then Ok(kept)
      else Err(ConflictingReplay)
  }

  function Deduplicate(anomalies: seq<Anomaly>): Result<seq<Anomaly>, Error> {
    if anomalies == [] then Ok([])
    else
      var before := Deduplicate(anomalies[..|anomalies| - 1]);
      if before.Err? then before else AddAnomaly(before.value, anomalies[|anomalies| - 1])
  }

  function TriggerFor(a: Anomaly, cutoff: Instant): Result<Trigger, Error> {
    if a.family.None? then Err(ForbiddenFamily)
    else if a.triggerFirst.None? then Err(MissingFirstKnowledge)
    else if a.triggerFirst.value > cutoff then Err(FutureTrigger)
    else if a.sourceFirst.Some? && a.sourceFirst.value > cutoff then Err(FutureReceipt)
    else if a.localCaptured.Some? && a.localCaptured.value > cutoff then Err(FutureCapture)
    else
      Ok(Trigger(a.family.value, a.entity, a.identity, a.source, a.qualifies, a.evidenceDate,
                 a.triggerFirst.value, a.sourceFirst, a.localCaptured))
  }

  function BuildTriggers(kept: seq<Anomaly>, cutoff: Instant): Result<seq<Trigger>, Error> {
    if kept == [] then Ok([])
    else
      var before := BuildTriggers(kept[..|kept| - 1], cutoff);
      if before.Err? then before
      else
        var trigger := TriggerFor(kept[|kept| - 1], cutoff);
        if trigger.Err? then Err(trigger.error) else Ok(before.value + [trigger.value])
  }

  function TriggersFor(anomalies: seq<Anomaly>, cutoff: Instant): Result<seq<Trigger>, Error> {
    var kept := Deduplicate(anomalies);
    if kept.Err? then Err(kept.error) else BuildTriggers(kept.value, cutoff)
  }

  /** The two loops of `_materialize_triggers`. */
  method MaterializeTriggers(anomalies: seq<Anomaly>, cutoff: Instant) returns (r: Result<seq<Trigger>, Error>)
    ensures r == TriggersFor(anomalies, cutoff)
  {
    var kept: seq<Anomaly> := [];
    for i := 0 to |anomalies|
      invariant Deduplicate(anomalies[..i]) == Ok(kept)
    {
      assert anomalies[..i + 1][..i] == anomalies[..i];
      var added := AddAnomaly(kept, anomalies[i]);
      if added.Err? {
        DeduplicateFails(anomalies, i + 1);
        return Err(added.error);
      }
      kept := added.value;
    }
    assert anomalies[..|anomalies|] == anomalies;
    var triggers: seq<Trigger> := [];
    for i := 0 to |kept|
      invariant BuildTriggers(kept[..i], cutoff) == Ok(triggers)
    {
      assert kept[..i + 1][..i] == kept[..i];
      var trigger := TriggerFor(kept[i], cutoff);
      if trigger.Err? {
        BuildFails(kept, cutoff, i + 1);
        return Err(trigger.error);
      }
      triggers := triggers + [trigger.value];
    }
    assert kept[..|kept|] == kept;
    r := Ok(triggers);
  }

  lemma {:induction false} DeduplicateFails(anomalies: seq<Anomaly>, n: nat)
    requires n <= |anomalies| && Deduplicate(anomalies[..n]).Err?
    ensures Deduplicate(anomalies) == Deduplicate(anomalies[..n])
  {
    if n < |anomalies| {
      assert anomalies[..|anomalies| - 1][..n] == anomalies[..n];
      DeduplicateFails(anomalies[..|anomalies| - 1], n);
    } else {
      assert anomalies[..n] == anomalies;
    }
  }

  lemma {:induction false} BuildFails(kept: seq<Anomaly>, cutoff: Instant, n: nat)
    requires n <= |kept| && BuildTriggers(kept[..n], cutoff).Err?
    ensures BuildTriggers(kept, cutoff) == BuildTriggers(kept[..n], cutoff)
  {
    if n < |kept| {
      assert kept[..|kept| - 1][..n] == kept[..n];
      BuildFails(kept[..|kept| - 1], cutoff, n);
    } else {
      assert kept[..n] == kept;
    }
  }

  ghost predicate KeysDiffer(kept: seq<Anomaly>) {
    forall i, j :: 0 <= i < j < |kept| ==> !SameKey(kept[i], kept[j])
  }

  lemma {:induction false} ExistingMeaning(kept: seq<Anomaly>, a: Anomaly)
    ensures Existing(kept, a).None? <==> forall i :: 0 <= i < |kept| ==> !SameKey(kept[i], a)
  {
    if kept != [] { ExistingMeaning(kept[..|kept| - 1], a); }
  }

  lemma {:induction false} DeduplicateKeys(anomalies: seq<Anomaly>)
    requires Deduplicate(anomalies).Ok?
    ensures KeysDiffer(Deduplicate(anomalies).value)
  {
    if anomalies != [] {
      DeduplicateKeys(anomalies[..|anomalies| - 1]);
      ExistingMeaning(Deduplicate(anomalies[..|anomalies| - 1]).value, anomalies[|anomalies| - 1]);
    }
  }

  /** No time of a trigger lies after the cutoff. */
  predicate NoneAfter(t: Trigger, cutoff: Instant) {
    && t.triggerFirst <= cutoff
    && (t.sourceFirst.Some? ==> t.sourceFirst.value <= cutoff)
    && (t.localCaptured.Some? ==> t.localCaptured.value <= cutoff)
  }

  predicate SameTriggerKey(a: Trigger, b: Trigger) { a.family == b.family && a.source == b.source }

  ghost predicate SoundTriggers(ts: seq<Trigger>, cutoff: Instant) {
    && (forall i :: 0 <= i < |ts| ==> NoneAfter(ts[i], cutoff))
    && (forall i, j :: 0 <= i < j < |ts| ==> !SameTriggerKey(ts[i], ts[j]))
  }

  lemma {:induction false} BuildTriggersAt(kept: seq<Anomaly>, cutoff: Instant)
    requires BuildTriggers(kept, cutoff).Ok?
    ensures var ts := BuildTriggers(kept, cutoff).value;
      |ts| == |kept| && forall i :: 0 <= i < |ts| ==> TriggerFor(kept[i], cutoff) == Ok(ts[i])
  {
    if kept != [] { BuildTriggersAt(kept[..|kept| - 1], cutoff); }
  }

  /** Accepted triggers have unique (family, source) keys and no time after the cutoff. */
  lemma TriggersAreSound(anomalies: seq<Anomaly>, cutoff: Instant)
    requires TriggersFor(anomalies, cutoff).Ok?
    ensures SoundTriggers(TriggersFor(anomalies, cutoff).value, cutoff)
  {
    var kept := Deduplicate(anomalies).value;
    DeduplicateKeys(anomalies);
    BuildTriggersAt(kept, cutoff);
    var ts := BuildTriggers(kept, cutoff).value;
    forall i, j | 0 <= i < j < |ts|
      ensures !SameTriggerKey(ts[i], ts[j])
    {
      assert !SameKey(kept[i], kept[j]);
    }
  }

  /** Anomaly `i` is the first of its (family, source) key. */
  ghost predicate FirstOfKey(anomalies: seq<Anomaly>, i: int) {
    0 <= i < |anomalies| && forall j :: 0 <= j < i ==> !SameKey(anomalies[j], anomalies[i])
  }

  ghost predicate KeepsFirst(anomalies: seq<Anomaly>, a: Anomaly) {
    exists i :: FirstOfKey(anomalies, i) && anomalies[i] == a
  }

  ghost predicate HasKey(s: seq<Anomaly>, a: Anomaly) { exists i :: 0 <= i < |s| && SameKey(s[i], a) }

  lemma FirstOfKeyStep(front: seq<Anomaly>, last: Anomaly, a: Anomaly)
    ensures KeepsFirst(front + [last], a) <==> KeepsFirst(front, a) || (a == last && !HasKey(front, last))
  {
    var s, n := front + [last], |front|;
    if KeepsFirst(front, a) {
      var i :| FirstOfKey(front, i) && front[i] == a;
      assert FirstOfKey(s, i) && s[i] == a;
    }
    if a == last && !HasKey(front, last) {
      assert FirstOfKey(s, n) && s[n] == a;
    }
    if KeepsFirst(s, a) {
      var i :| FirstOfKey(s, i) && s[i] == a;
      assert forall j :: 0 <= j < n ==> s[j] == front[j];
      if i < n { assert FirstOfKey(front, i) && front[i] == a; }
    }
  }

  lemma {:induction false} DeduplicateMeaning(anomalies: seq<Anomaly>)
    requires Deduplicate(anomalies).Ok?
    ensures forall a :: a in Deduplicate(anomalies).value <==> KeepsFirst(anomalies, a)
    ensures forall a :: HasKey(Deduplicate(anomalies).value, a) <==> HasKey(anomalies, a)
  {
    if anomalies != [] {
      var front, last := anomalies[..|anomalies| - 1], anomalies[|anomalies| - 1];
      DeduplicateMeaning(front);
      var kept := Deduplicate(front).value;
      ExistingMeaning(kept, last);
      assert anomalies == front + [last];
      assert HasKey(kept, last) <==> Existing(kept, last).Some?;
      forall a
        ensures a in Deduplicate(anomalies).value <==> KeepsFirst(anomalies, a)
        ensures HasKey(Deduplicate(anomalies).value, a) <==> HasKey(anomalies, a)
      {
        FirstOfKeyStep(front, last, a);
        KeyStep(front, last, a);
        KeyStep(kept, last, a);
      }
    }
  }

  lemma KeyStep(front: seq<Anomaly>, last: Anomaly, a: Anomaly)
    ensures HasKey(front + [last], a) <==> HasKey(front, a) || SameKey(last, a)
  {
    var s := front + [last];
    assert s[|front|] == last;
    if HasKey(front, a) {
      var i :| 0 <= i < |front| && SameKey(front[i], a);
      assert SameKey(s[i], a);
    }
  }

  ghost predicate HasQualifyingTrigger(ts: seq<Trigger>) { exists t :: t in ts && t.qualifies }

  ghost predicate FirstQualifies(anomalies: seq<Anomaly>) {
    exists i :: FirstOfKey(anomalies, i) && anomalies[i].qualifies
  }

  ghost predicate HasQualifier(kept: seq<Anomaly>) { exists a :: a in kept && a.qualifies }

  lemma QualifierIffFirst(anomalies: seq<Anomaly>)
    requires Deduplicate(anomalies).Ok?
    ensures HasQualifier(Deduplicate(anomalies).value) <==> FirstQualifies(anomalies)
  {
    var kept := Deduplicate(anomalies).value;
    DeduplicateMeaning(anomalies);
    if HasQualifier(kept) {
      var a :| a in kept && a.qualifies;
      assert KeepsFirst(anomalies, a);
      var i :| FirstOfKey(anomalies, i) && anomalies[i] == a;
    }
    if FirstQualifies(anomalies) {
      var i :| FirstOfKey(anomalies, i) && anomalies[i].qualifies;
      assert KeepsFirst(anomalies, anomalies[i]);
      assert anomalies[i] in kept;
    }
  }

  lemma BuildKeepsQualifier(kept: seq<Anomaly>, cutoff: Instant)
    requires BuildTriggers(kept, cutoff).Ok?
    ensures HasQualifyingTrigger(BuildTriggers(kept, cutoff).value) <==> HasQualifier(kept)
  {
    BuildTriggersAt(kept, cutoff);
    var ts := BuildTriggers(kept, cutoff).value;
    if HasQualifyingTrigger(ts) {
      var t :| t in ts && t.qualifies;
      var k :| 0 <= k < |ts| && ts[k] == t;
      assert kept[k] in kept && TriggerFor(kept[k], cutoff) == Ok(t);
    }
    if HasQualifier(kept) {
      var a :| a in kept && a.qualifies;
      var k :| 0 <= k < |kept| && kept[k] == a;
      assert ts[k] in ts && TriggerFor(kept[k], cutoff) == Ok(ts[k]);
    }
  }

  /** A stored candidate has a qualifying trigger exactly when some qualifying anomaly is the first
      of its key: the guard before deduplication does not ensure it. */
  lemma QualifyingTriggerIff(anomalies: seq<Anomaly>, cutoff: Instant)
    requires TriggersFor(anomalies, cutoff).Ok?
    ensures HasQualifyingTrigger(TriggersFor(anomalies, cutoff).value) <==> FirstQualifies(anomalies)
  {
    QualifierIffFirst(anomalies);
    BuildKeepsQualifier(Deduplicate(anomalies).value, cutoff);
  }

  /** A non-qualifying anomaly ahead of a qualifying one with the same key and identity swallows it:
      the guard passes and the stored candidate has no qualifying trigger. */
  lemma DuplicateHidesQualifier()
    ensures exists anomalies, cutoff ::
      && Qualifying(anomalies) != []
      && TriggersFor(anomalies, cutoff).Ok?
      && !HasQualifyingTrigger(TriggersFor(anomalies, cutoff).value)
  {
    var a := Anomaly(Some(ContractPersistence), Some(1), ContractEntity, Some(1), RowIdentity(ContractTable, Some(1)),
                     false, None, Some(0), None, None);
    var b := a.(qualifies := true);
    var anomalies := [a, b];
    assert anomalies[..1] == [a] && [a][..0] == [];
    var none: seq<Anomaly> := [];
    assert none + [a] == [a];
    assert AddAnomaly(none, a) == Ok([a]);
    assert Deduplicate([a][..0]) == Ok([]);
    assert Deduplicate([a]) == Ok([a]);
    assert Existing([a], b) == Some(a);
    assert Deduplicate(anomalies) == Ok([a]);
    assert Qualifying(anomalies) != [];
    assert BuildTriggers([], 0) == Ok([]);
    assert TriggersFor(anomalies, 0).Ok?;
    QualifyingTriggerIff(anomalies, 0);
    assert SameKey(anomalies[0], anomalies[1]);
  }

  // ---------------------------------------------------------------- one call

  datatype State = State(run: Run, candidates: seq<ProductCandidate>)

  predicate CandidateLeq(a: ProductCandidate, b: ProductCandidate) {
    a.ticker < b.ticker || (a.ticker == b.ticker && a.id <= b.id)
  }

  function RunRows(s: State): seq<ProductCandidate> {
    Filter(s.candidates, (c: ProductCandidate) => c.runId == s.run.id)
  }

  /** `load_product_candidates_for_scan`. */
  function Load(s: State): seq<ProductCandidate> { StableSort(CandidateLeq, RunRows(s)) }

  predicate Taken(rows: seq<ProductCandidate>, runId: int, ticker: Ticker) {
    exists i :: 0 <= i < |rows| && rows[i].runId == runId && rows[i].ticker == ticker
                && rows[i].version == MATERIALIZATION_RULE_VERSION
  }

  /** Candidates for the projections, numbered after the rows already stored. */
  function NewRows(stored: seq<ProductCandidate>, run: Run, projections: seq<Projection>, cutoff: Instant)
    : Result<seq<ProductCandidate>, Error>
  {
    if projections == [] then Ok([])
    else
      var before := NewRows(stored, run, projections[..|projections| - 1], cutoff);
      if before.Err? then before
      else
        var row := NewRow(stored + before.value, run, projections[|projections| - 1], cutoff);
        if row.Err? then Err(row.error) else Ok(before.value + [row.value])
  }

  function NewRow(stored: seq<ProductCandidate>, run: Run, p: Projection, cutoff: Instant): Result<ProductCandidate, Error> {
    if Qualifying(p.anomalies) == [] then Err(NoQualifyingTrigger)
    else if Taken(stored, run.id, p.ticker) then Err(StorageConflict)
    else
      var triggers := TriggersFor(p.anomalies, cutoff);
      if triggers.Err? then Err(triggers.error)
      else
        Ok(ProductCandidate(|stored|, run.id, p.ticker, cutoff, MATERIALIZATION_RULE_VERSION, HashFor(run), cutoff,
                            triggers.value))
  }

  function Marked(run: Run, cutoff: Instant): Run {
    run.(marker := Marker(Some(cutoff), Some(MATERIALIZATION_RULE_VERSION), Some(HashFor(run))))
  }

  predicate RowMatches(run: Run, c: ProductCandidate) {
    && Some(c.firstKnowledge) == run.marker.at
    && c.version == MATERIALIZATION_RULE_VERSION
    && c.hash == HashFor(run)
  }

  predicate AllMatch(run: Run, rows: seq<ProductCandidate>) {
    forall i :: 0 <= i < |rows| ==> RowMatches(run, rows[i])
  }

  /** `_load_verified_replay`. */
  function Replay(s: State): Result<seq<ProductCandidate>, Error> {
    var m := s.run.marker;
    if m.at.None? || m.version.None? || m.hash.None? then Err(IncompleteMarker)
    else if m.version.value != MATERIALIZATION_RULE_VERSION then Err(OtherRuleVersion)
    else if m.hash.value != HashFor(s.run) then Err(RuleConflict)
    else if !AllMatch(s.run, Load(s)) then Err(IdentityConflict)
    else Ok(Load(s))
  }

  datatype Outcome = Outcome(state: State, result: Result<seq<ProductCandidate>, Error>)

  /** One call at `at`, with the anomaly pool known at that cutoff. A failing call is rolled back. */
  function Step(s: State, at: Instant, pool: seq<Anomaly>): Outcome {
    if s.run.status != Complete then Outcome(s, Ok([]))
    else if s.run.completedAt != Some(at) then Outcome(s, Err(CutoffMismatch))
    else if s.run.marker.at.Some? then Outcome(s, Replay(s))
    else if RunRows(s) != [] then Outcome(s, Err(OrphanRows))
    else
      var rows := NewRows(s.candidates, s.run, Projections(pool), at);
      if rows.Err? then Outcome(s, Err(rows.error))
      else Outcome(State(Marked(s.run, at), s.candidates + rows.value), Ok(rows.value))
  }

  class CandidateMaterializer {
    var run: Run
    var candidates: seq<ProductCandidate>

    constructor (run: Run, candidates: seq<ProductCandidate>)
      ensures Contents() == State(run, candidates)
    {
      this.run := run;
      this.candidates := candidates;
    }

    function Contents(): State
      reads this
    {
      State(run, candidates)
    }

    /** `materialize_successful_scan_candidates`. */
    method Materialize(at: Instant, pool: seq<Anomaly>) returns (r: Result<seq<ProductCandidate>, Error>)
      modifies this
      ensures Outcome(Contents(), r) == Step(old(Contents()), at, pool)
    {
      if run.status != Complete {
        return Ok([]);
      }
      if run.completedAt != Some(at) {
        return Err(CutoffMismatch);
      }
      if run.marker.at.Some? {
        return Replay(Contents());
      }
      if RunRows(Contents()) != [] {
        return Err(OrphanRows);
      }
      var projections := GroupProductCandidates(pool);
      r := Persist(projections, at);
    }

    /** `persist_candidate_projection`: every row, then the three markers together. */
    method Persist(projections: seq<Projection>, cutoff: Instant) returns (r: Result<seq<ProductCandidate>, Error>)
      modifies this
      ensures r == NewRows(old(candidates), old(run), projections, cutoff)
      ensures Contents() == if r.Ok? then State(Marked(old(run), cutoff), old(candidates) + r.value) else old(Contents())
    {
      var rows: seq<ProductCandidate> := [];
      for i := 0 to |projections|
        invariant run == old(run) && candidates == old(candidates)
        invariant NewRows(candidates, run, projections[..i], cutoff) == Ok(rows)
      {
        assert projections[..i + 1][..i] == projections[..i];
        var p := projections[i];
        var row: Result<ProductCandidate, Error>;
        if Qualifying(p.anomalies) == [] {
          row := Err(NoQualifyingTrigger);
        } else if Taken(candidates + rows, run.id, p.ticker) {
          row := Err(StorageConflict);
        } else {
          var triggers := MaterializeTriggers(p.anomalies, cutoff);
          row := if triggers.Err? then Err(triggers.error)
          else Ok(ProductCandidate(|candidates + rows|, run.id, p.ticker, cutoff, MATERIALIZATION_RULE_VERSION,
                                   HashFor(run), cutoff, triggers.value));
        }
        if row.Err? {
          NewRowsFail(candidates, run, projections, cutoff, i + 1);
          return Err(row.error);
        }
        rows := rows + [row.value];
      }
      assert projections[..|projections|] == projections;
      candidates := candidates + rows;
      run := Marked(run, cutoff);
      r := Ok(rows);
    }
  }

  lemma {:induction false} NewRowsFail(stored: seq<ProductCandidate>, run: Run, projections: seq<Projection>, cutoff: Instant, n: nat)
    requires n <= |projections| && NewRows(stored, run, projections[..n], cutoff).Err?
    ensures NewRows(stored, run, projections, cutoff) == NewRows(stored, run, projections[..n], cutoff)
  {
    if n < |projections| {
      assert projections[..|projections| - 1][..n] == projections[..n];
      NewRowsFail(stored, run, projections[..|projections| - 1], cutoff, n);
    } else {
      assert projections[..n] == projections;
    }
  }
}
