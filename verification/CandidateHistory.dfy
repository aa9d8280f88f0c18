/** Candidate materialization over whole sequences of calls. */
module CandidateHistory {
  import opened Prelude
  import opened TradingCalendar
  import opened CandidateGrouping
  import opened CandidateMaterialization

  // ---------------------------------------------------------------- the state invariant

  ghost predicate TickersClimb(rows: seq<ProductCandidate>) {
    forall i, j :: 0 <= i < j < |rows| ==> rows[i].ticker < rows[j].ticker
  }

  /** A row as the run at `cutoff` under `hash` creates it. */
  ghost predicate SoundRow(c: ProductCandidate, runId: int, cutoff: Instant, hash: RuleHash) {
    && c.runId == runId && c.firstKnowledge == cutoff && c.createdAt == cutoff
    && c.version == MATERIALIZATION_RULE_VERSION && c.hash == hash
    && SoundTriggers(c.triggers, cutoff)
  }

  ghost predicate SoundRows(rows: seq<ProductCandidate>, runId: int, cutoff: Instant, hash: RuleHash) {
    && TickersClimb(rows)
    && forall i :: 0 <= i < |rows| ==> SoundRow(rows[i], runId, cutoff, hash)
  }

  /** The three markers are set together; without them the run has no rows, with them its rows all
      carry the marker time, have unique tickers and no trigger, receipt or capture after it. */
  ghost predicate ValidState(s: State) {
    var m := s.run.marker;
    if m.at.None? then m.version.None? && m.hash.None? && RunRows(s) == []
    else
      && m.version == Some(MATERIALIZATION_RULE_VERSION) && m.hash.Some?
      && SoundRows(RunRows(s), s.run.id, m.at.value, m.hash.value)
  }

  // ---------------------------------------------------------------- the first call

  lemma {:induction false} NewRowsFollow(stored: seq<ProductCandidate>, run: Run, projections: seq<Projection>, cutoff: Instant)
    requires NewRows(stored, run, projections, cutoff).Ok?
    ensures var rows := NewRows(stored, run, projections, cutoff).value;
      && |rows| == |projections|
      && forall i :: 0 <= i < |rows| ==>
           (rows[i].ticker == projections[i].ticker && SoundRow(rows[i], run.id, cutoff, HashFor(run)))
  {
    if projections != [] {
      NewRowsFollow(stored, run, projections[..|projections| - 1], cutoff);
      TriggersAreSound(projections[|projections| - 1].anomalies, cutoff);
    }
  }

  /** Some projection's triggers fail with this very error. */
  ghost predicate Blames(projections: seq<Projection>, cutoff: Instant, error: Error) {
    exists p :: p in projections && TriggersFor(p.anomalies, cutoff) == Err(error)
  }

  lemma NewRowFails(stored: seq<ProductCandidate>, run: Run, p: Projection, cutoff: Instant)
    requires Qualifying(p.anomalies) != [] && !Taken(stored, run.id, p.ticker)
    ensures NewRow(stored, run, p, cutoff).Err? ==> TriggersFor(p.anomalies, cutoff) == Err(NewRow(stored, run, p, cutoff).error)
  {
  }

  /** Grouped projections never trip the qualifying-trigger guard nor the uniqueness constraint:
      a first call can fail only on its triggers. */
  lemma {:induction false} GroupedNeverTripGuards(stored: seq<ProductCandidate>, run: Run, projections: seq<Projection>, cutoff: Instant)
    requires TickersAscend(projections)
    requires forall i :: 0 <= i < |projections| ==> Qualifying(projections[i].anomalies) != []
    requires forall i :: 0 <= i < |stored| ==> stored[i].runId != run.id
    ensures NewRows(stored, run, projections, cutoff).Err? ==>
      Blames(projections, cutoff, NewRows(stored, run, projections, cutoff).error)
  {
    if projections != [] && NewRows(stored, run, projections, cutoff).Err? {
      var n := |projections| - 1;
      var front, p := projections[..n], projections[n];
      GroupedNeverTripGuards(stored, run, front, cutoff);
      var before := NewRows(stored, run, front, cutoff);
      if before.Err? {
        var q :| q in front && TriggersFor(q.anomalies, cutoff) == Err(before.error);
        assert q in projections;
      } else {
        NewRowsFollow(stored, run, front, cutoff);
        NotTaken(stored, before.value, run.id, p.ticker);
        NewRowFails(stored + before.value, run, p, cutoff);
        assert p in projections;
      }
    }
  }

  lemma NotTaken(stored: seq<ProductCandidate>, rows: seq<ProductCandidate>, runId: int, ticker: Ticker)
    requires forall i :: 0 <= i < |stored| ==> stored[i].runId != runId
    requires forall i :: 0 <= i < |rows| ==> rows[i].ticker != ticker
    ensures !Taken(stored + rows, runId, ticker)
  {
  }

  lemma NoRowsOfRun(s: State)
    requires RunRows(s) == []
    ensures forall i :: 0 <= i < |s.candidates| ==> s.candidates[i].runId != s.run.id
  {
    FilterMembers(s.candidates, (c: ProductCandidate) => c.runId == s.run.id);
    forall i | 0 <= i < |s.candidates|
      ensures s.candidates[i].runId != s.run.id
    {
      assert s.candidates[i] !in RunRows(s);
    }
  }

  lemma FirstCallFailsOnTriggersOnly(s: State, at: Instant, pool: seq<Anomaly>)
    requires ValidState(s) && s.run.status == Complete && s.run.completedAt == Some(at) && s.run.marker.at.None?
    requires Step(s, at, pool).result.Err?
    ensures Blames(Projections(pool), at, Step(s, at, pool).result.error)
  {
    ProjectionMeaning(pool);
    NoRowsOfRun(s);
    forall i | 0 <= i < |Projections(pool)|
      ensures Qualifying(Projections(pool)[i].anomalies) != []
    {
      assert Projections(pool)[i] in Projections(pool);
    }
    GroupedNeverTripGuards(s.candidates, s.run, Projections(pool), at);
  }

  lemma {:induction false} FilterAll(rows: seq<ProductCandidate>, runId: int)
    requires forall i :: 0 <= i < |rows| ==> rows[i].runId == runId
    ensures Filter(rows, (c: ProductCandidate) => c.runId == runId) == rows
  {
    if rows != [] {
      FilterAll(rows[..|rows| - 1], runId);
      assert rows == rows[..|rows| - 1] + [rows[|rows| - 1]];
    }
  }

  /** A successful first call adds exactly one row per projected ticker and sets the markers. */
  lemma FirstCall(s: State, at: Instant, pool: seq<Anomaly>)
    requires ValidState(s) && s.run.status == Complete && s.run.marker.at.None?
    requires s.run.completedAt == Some(at) && Step(s, at, pool).result.Ok?
    ensures var o := Step(s, at, pool);
      && ValidState(o.state) && o.state.run == Marked(s.run, at)
      && o.state.candidates == s.candidates + o.result.value
      && RunRows(o.state) == o.result.value && Load(o.state) == o.result.value
      && |o.result.value| == |Projections(pool)|
      && forall i :: 0 <= i < |o.result.value| ==> o.result.value[i].ticker == Projections(pool)[i].ticker
  {
    var rows := Step(s, at, pool).result.value;
    var s' := Step(s, at, pool).state;
    ProjectionMeaning(pool);
    NewRowsFollow(s.candidates, s.run, Projections(pool), at);
    FilterAll(rows, s.run.id);
    FilterConcat(s.candidates, rows, (c: ProductCandidate) => c.runId == s.run.id);
    assert RunRows(s') == [] + rows;
    SortOfClimbing(rows);
  }

  lemma SortOfClimbing(rows: seq<ProductCandidate>)
    requires TickersClimb(rows)
    ensures StableSort(CandidateLeq, rows) == rows
  {
    SortOfSorted(CandidateLeq, rows);
  }

  // ---------------------------------------------------------------- replays

  /** A call after the markers are set never changes anything; it returns the stored rows exactly
      when it names the run's cutoff and the rule inputs are unchanged, and fails otherwise. */
  lemma ReplayIff(s: State, at: Instant, pool: seq<Anomaly>)
    requires ValidState(s) && s.run.status == Complete && s.run.marker.at.Some?
    ensures var o := Step(s, at, pool);
      && o.state == s
      && (o.result.Ok? <==> s.run.completedAt == Some(at) && s.run.marker.hash.value == HashFor(s.run))
      && (o.result.Ok? ==> o.result.value == RunRows(s))
  {
    SortOfClimbing(RunRows(s));
    assert Load(s) == RunRows(s);
    if s.run.marker.hash.value == HashFor(s.run) { RowsMatch(s.run, RunRows(s)); }
    assert Step(s, at, pool) == if s.run.completedAt != Some(at) then Outcome(s, Err(CutoffMismatch)) else Outcome(s, Replay(s));
  }

  /** The rows of a run match its markers as long as the rule hash is the same. */
  lemma RowsMatch(run: Run, rows: seq<ProductCandidate>)
    requires run.marker.at.Some? && run.marker.hash == Some(HashFor(run))
    requires SoundRows(rows, run.id, run.marker.at.value, HashFor(run))
    ensures AllMatch(run, rows)
  {
    forall i | 0 <= i < |rows|
      ensures RowMatches(run, rows[i])
    {
      assert SoundRow(rows[i], run.id, run.marker.at.value, HashFor(run));
    }
  }

  // ---------------------------------------------------------------- sequences of events

  /** What may happen to a run and its table: calls, edits of the run's ordinary columns, and rows
      of other runs. */
  datatype Event =
    | Call(at: Instant, pool: seq<Anomaly>)
    | Edit(status: RunStatus, completedAt: Option<Instant>, specification: int, configuration: int)
    | OtherRun(rows: seq<ProductCandidate>)

  ghost predicate Foreign(e: Event, runId: int) {
    e.OtherRun? ==> forall i :: 0 <= i < |e.rows| ==> e.rows[i].runId != runId
  }

  function After(s: State, e: Event): State {
    match e
    case Call(at, pool) => Step(s, at, pool).state
    case Edit(status, completedAt, specification, configuration) =>
      s.(run := s.run.(status := status, completedAt := completedAt, specification := specification, configuration := configuration))
    case OtherRun(rows) => s.(candidates := s.candidates + rows)
  }

  function AfterAll(s: State, events: seq<Event>): State {
    if events == [] then s else After(AfterAll(s, events[..|events| - 1]), events[|events| - 1])
  }

  ghost predicate AllForeign(events: seq<Event>, runId: int) {
    forall i :: 0 <= i < |events| ==> Foreign(events[i], runId)
  }

  lemma OtherRowsInvisible(s: State, rows: seq<ProductCandidate>)
    requires forall i :: 0 <= i < |rows| ==> rows[i].runId != s.run.id
    ensures RunRows(s.(candidates := s.candidates + rows)) == RunRows(s)
  {
    var own := (c: ProductCandidate) => c.runId == s.run.id;
    FilterConcat(s.candidates, rows, own);
    FilterEmpty(rows, own);
    assert RunRows(s) + [] == RunRows(s);
  }

  lemma EventKeeps(s: State, e: Event)
    requires ValidState(s) && Foreign(e, s.run.id)
    ensures ValidState(After(s, e)) && After(s, e).run.id == s.run.id
    ensures s.candidates <= After(s, e).candidates
    ensures s.run.marker.at.Some? ==> After(s, e).run.marker == s.run.marker && RunRows(After(s, e)) == RunRows(s)
  {
    match e
    case Call(at, pool) =>
      if s.run.marker.at.None? && s.run.status == Complete && s.run.completedAt == Some(at) && Step(s, at, pool).result.Ok? {
        FirstCall(s, at, pool);
      }
    case Edit(_, _, _, _) =>
      assert RunRows(After(s, e)) == RunRows(s);
    case OtherRun(rows) =>
      OtherRowsInvisible(s, rows);
  }

  /** Every sequence of events keeps the invariant, never removes or alters a stored row, and never
      changes the markers or the run's rows once they exist. */
  lemma {:induction false} EventsKeep(s: State, events: seq<Event>)
    requires ValidState(s) && AllForeign(events, s.run.id)
    ensures var s' := AfterAll(s, events);
      && ValidState(s') && s'.run.id == s.run.id && s.candidates <= s'.candidates
      && (s.run.marker.at.Some? ==> s'.run.marker == s.run.marker && RunRows(s') == RunRows(s))
  {
    if events != [] {
      EventsKeep(s, events[..|events| - 1]);
      EventKeeps(AfterAll(s, events[..|events| - 1]), events[|events| - 1]);
    }
  }

  /** Exactly once: whatever happens after a successful first call, any later successful call of
      the complete run returns the very rows the first call created. */
  lemma ExactlyOnce(s: State, at: Instant, pool: seq<Anomaly>, events: seq<Event>, at': Instant, pool': seq<Anomaly>)
    requires ValidState(s) && s.run.status == Complete && s.run.marker.at.None?
    requires s.run.completedAt == Some(at) && Step(s, at, pool).result.Ok?
    requires AllForeign(events, s.run.id)
    ensures var first := Step(s, at, pool);
      var later := AfterAll(first.state, events);
      var again := Step(later, at', pool');
      && again.state == later && RunRows(later) == first.result.value
      && (again.result.Ok? && later.run.status == Complete ==> again.result.value == first.result.value)
  {
    FirstCall(s, at, pool);
    var first := Step(s, at, pool);
    EventsKeep(first.state, events);
    var later := AfterAll(first.state, events);
    if later.run.status == Complete { ReplayIff(later, at', pool'); }
  }

  ghost predicate Corruption(e: Error) {
    e in {OrphanRows, IncompleteMarker, OtherRuleVersion, IdentityConflict, NoQualifyingTrigger, StorageConflict}
  }

  lemma ValidNeverCorrupt(s: State, at: Instant, pool: seq<Anomaly>)
    requires ValidState(s)
    ensures Step(s, at, pool).result.Err? ==> !Corruption(Step(s, at, pool).result.error)
  {
    if s.run.status == Complete && s.run.completedAt == Some(at) {
      if s.run.marker.at.Some? {
        ReplayNeverCorrupt(s);
      } else if Step(s, at, pool).result.Err? {
        FirstCallFailsOnTriggersOnly(s, at, pool);
        var error := Step(s, at, pool).result.error;
        var p :| p in Projections(pool) && TriggersFor(p.anomalies, at) == Err(error);
        TriggerErrors(p.anomalies, at);
      }
    }
  }

  lemma ReplayNeverCorrupt(s: State)
    requires ValidState(s) && s.run.marker.at.Some?
    ensures Replay(s).Err? ==> Replay(s).error == RuleConflict
  {
    SortOfClimbing(RunRows(s));
    assert Load(s) == RunRows(s);
    if s.run.marker.hash.value == HashFor(s.run) { RowsMatch(s.run, RunRows(s)); }
  }

  /** Reachable states never show rows without a marker, an incomplete marker, another rule
      version or rows that conflict with the marker. */
  lemma NeverCorrupt(s: State, events: seq<Event>, at: Instant, pool: seq<Anomaly>)
    requires ValidState(s) && AllForeign(events, s.run.id)
    ensures var r := Step(AfterAll(s, events), at, pool).result;
      r.Err? ==> !Corruption(r.error)
  {
    EventsKeep(s, events);
    ValidNeverCorrupt(AfterAll(s, events), at, pool);
  }

  lemma {:induction false} DeduplicateErrors(anomalies: seq<Anomaly>)
    ensures Deduplicate(anomalies).Err? ==> Deduplicate(anomalies).error in {ForbiddenFamily, UnidentifiedSource, ConflictingReplay}
  {
    if anomalies != [] { DeduplicateErrors(anomalies[..|anomalies| - 1]); }
  }

  lemma {:induction false} BuildErrors(kept: seq<Anomaly>, cutoff: Instant)
    ensures BuildTriggers(kept, cutoff).Err? ==>
      BuildTriggers(kept, cutoff).error in {ForbiddenFamily, MissingFirstKnowledge, FutureTrigger, FutureReceipt, FutureCapture}
  {
    if kept != [] { BuildErrors(kept[..|kept| - 1], cutoff); }
  }

  lemma TriggerErrors(anomalies: seq<Anomaly>, cutoff: Instant)
    ensures TriggersFor(anomalies, cutoff).Err? ==>
      TriggersFor(anomalies, cutoff).error in
        {ForbiddenFamily, UnidentifiedSource, ConflictingReplay, MissingFirstKnowledge, FutureTrigger, FutureReceipt, FutureCapture}
  {
    DeduplicateErrors(anomalies);
    if Deduplicate(anomalies).Ok? { BuildErrors(Deduplicate(anomalies).value, cutoff); }
  }
}
