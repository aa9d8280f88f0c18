/** Runs of the research store: evidence arrives in any order, steps happen in between. */
module OutcomeHistory {
  import opened Prelude
  import opened TradingCalendar
  import opened CanonicalDaily
  import opened OhlcCatalog
  import opened ForwardOutcome
  import opened ResearchSamples
  import opened CorporateActions
  import opened Representatives
  import opened SampleTable
  import opened OutcomeProposals
  import opened MeasurementChain
  import opened OutcomeStore
  import opened OutcomeRuns

  datatype World = World(ev: Evidence, db: Db)

  datatype Event =
    | CandidateMaterialized(candidate: ProductCandidate, run: ScanRun)
    | BaselineFrozen(baseline: Baseline)
    | PayloadReceived(payload: RawPayload)
    | ActionRecorded(action: CorporateAction)
    | Materialize(at: Instant)

  predicate FreshCandidate(ev: Evidence, c: ProductCandidate, run: ScanRun) {
    && (forall i :: 0 <= i < |ev.candidates| ==> ev.candidates[i].id != c.id)
    && c.scanRunId == run.id && (run.id in ev.runs ==> ev.runs[run.id] == run)
  }

  /** Evidence tables only grow, and a row whose primary key exists is refused. */
  function Absorb(ev: Evidence, e: Event): Evidence {
    match e
    case CandidateMaterialized(c, run) =>
      if FreshCandidate(ev, c, run) then ev.(candidates := ev.candidates + [c], runs := ev.runs[run.id := run]) else ev
    case BaselineFrozen(b) =>
      if forall i :: 0 <= i < |ev.baselines| ==> ev.baselines[i].id != b.id then ev.(baselines := ev.baselines + [b]) else ev
    case PayloadReceived(p) =>
      if forall i :: 0 <= i < |ev.payloads| ==> ev.payloads[i].id != p.id then ev.(payloads := ev.payloads + [p]) else ev
    case ActionRecorded(a) =>
      if forall i :: 0 <= i < |ev.actions| ==> ev.actions[i].id != a.id then ev.(actions := ev.actions + [a]) else ev
    case Materialize(_) => ev
  }

  ghost predicate ValidWorld(ctx: Context, w: World) {
    ValidEvidence(w.ev) && ValidDb(ctx.cal, w.db)
  }

  /** One event; a failed step is rolled back. */
  function Step(ctx: Context, w: World, e: Event): World
    requires ValidCalendar(ctx.cal) && ValidWorld(ctx, w)
  {
    if e.Materialize? then
      var r := MaterializeStep(ctx, w.ev, w.db, e.at);
      if r.Ok? then World(w.ev, r.value) else w
    else World(Absorb(w.ev, e), w.db)
  }

  lemma StepKeepsWorld(ctx: Context, w: World, e: Event)
    requires ValidCalendar(ctx.cal) && ValidWorld(ctx, w)
    ensures var w' := Step(ctx, w, e);
      ValidWorld(ctx, w') && w.db.samples <= w'.db.samples && w.db.measurements <= w'.db.measurements
  {
    if e.Materialize? { StepKeepsStore(ctx, w.ev, w.db, e.at); }
  }

  function Run(ctx: Context, w: World, events: seq<Event>): (w': World)
    requires ValidCalendar(ctx.cal) && ValidWorld(ctx, w)
    ensures ValidWorld(ctx, w')
  {
    if events == [] then w
    else
      var before := Run(ctx, w, events[..|events| - 1]);
      StepKeepsWorld(ctx, before, events[|events| - 1]);
      Step(ctx, before, events[|events| - 1])
  }

  /** Over every run the tables only grow at the end and every (sample, horizon) has a revision
      chain 1..n whose neighbours differ. */
  lemma {:induction false} RunIsAppendOnly(ctx: Context, w: World, events: seq<Event>, sample: nat, h: int)
    requires ValidCalendar(ctx.cal) && ValidWorld(ctx, w)
    ensures var w' := Run(ctx, w, events);
      && w.db.samples <= w'.db.samples && w.db.measurements <= w'.db.measurements
      && forall i :: 0 <= i < |ChainIds(w'.db.measurements, sample, h)| ==>
           Link(w'.db.measurements, ChainIds(w'.db.measurements, sample, h), i)
  {
    ChainShape(Run(ctx, w, events).db.measurements, sample, h);
    if events != [] {
      RunIsAppendOnly(ctx, w, events[..|events| - 1], sample, h);
      StepKeepsWorld(ctx, Run(ctx, w, events[..|events| - 1]), events[|events| - 1]);
    }
  }

  /** Candidate `i` is eligible, and no candidate of its window comes before it. */
  ghost predicate Leads(ctx: Context, ev: Evidence, i: nat)
    requires i < |ev.candidates|
  {
    LeadsUnder(Foundations(ctx, ev), ev.candidates, i)
  }

  ghost predicate LeadsUnder(rebuilt: Rebuilt, candidates: seq<ProductCandidate>, i: nat)
    requires i < |candidates|
  {
    var f := rebuilt(candidates[i]);
    && f.Some? && f.value.primaryEligible
    && forall j :: 0 <= j < |candidates| ==> !Precedes(rebuilt(candidates[j]), f.value)
  }

  /** `g` is of the same window as `f`, eligible, and has the smaller key. */
  predicate Precedes(g: Option<Foundation>, f: Foundation) {
    g.Some? && InWindow(g.value, f.windowKey) && KeyLess(g.value, f)
  }

  /** A step marks exactly the rows of the candidates that lead their windows. */
  lemma MarkedIffLeads(ctx: Context, ev: Evidence, db: Db, t: Instant, i: nat)
    requires ValidCalendar(ctx.cal) && ValidEvidence(ev) && ValidDb(ctx.cal, db)
    requires MaterializeStep(ctx, ev, db, t).Ok? && i < |ev.candidates|
    ensures |StepPairs(ctx, ev, db, t)| == |ev.candidates|
    ensures StepPairs(ctx, ev, db, t)[i].0 in RepresentativeIds(StepPairs(ctx, ev, db, t)) <==> Leads(ctx, ev, i)
  {
    PairsAreDistinct(ctx, ev, db, t);
    PairsAnswer(ctx, ev, db.samples, t);
    var samples := EnsureAll(Foundations(ctx, ev), db.samples, ev.candidates, t).value.0;
    LeadsIffRepresents(Foundations(ctx, ev), samples, ev.candidates, StepPairs(ctx, ev, db, t), i);
    MarkedIffRepresents(StepPairs(ctx, ev, db, t), i);
  }

  lemma LeadsIffRepresents(
      rebuilt: Rebuilt, samples: seq<Sample>, candidates: seq<ProductCandidate>, pairs: seq<Pair>, i: nat)
    requires PairsMatch(rebuilt, samples, candidates, pairs) && i < |pairs|
    ensures LeadsUnder(rebuilt, candidates, i) <==> Represents(pairs, i)
  {
    assert forall j :: 0 <= j < |pairs| ==> PairMatches(rebuilt, samples, candidates[j], pairs[j]);
    forall j | 0 <= j < |pairs|
      ensures Precedes(rebuilt(candidates[j]), pairs[i].1)
         <==> InWindow(pairs[j].1, pairs[i].1.windowKey) && KeyLess(pairs[j].1, pairs[i].1)
    {
    }
  }

  /** The stored row of candidate `i` holds its rebuilt foundation, and the newest measurement of
      its horizon `h` is the proposal of time `t`, made as the representative's exactly when the
      candidate leads its window. */
  ghost predicate EndsAtProposal(ctx: Context, ev: Evidence, db: Db, t: Instant, i: nat, h: int)
    requires ValidCalendar(ctx.cal) && ValidEvidence(ev) && i < |ev.candidates| && Horizon(h)
  {
    var row := SampleRow(db.samples, ev.candidates[i].id);
    && row.Some? && Foundations(ctx, ev)(ev.candidates[i]) == Some(db.samples[row.value].values)
    && Planned(ctx.cal, db.samples[row.value].values)
    && NewestIs(db.measurements, row.value, h, ProposalFor(ctx, ev, db.samples[row.value].values, h, t, Leads(ctx, ev, i)).content)
  }

  lemma StepEndsAtProposal(ctx: Context, ev: Evidence, db: Db, t: Instant, i: nat, h: int)
    requires ValidCalendar(ctx.cal) && ValidEvidence(ev) && ValidDb(ctx.cal, db)
    requires i < |ev.candidates| && Horizon(h) && MaterializeStep(ctx, ev, db, t).Ok?
    ensures EndsAtProposal(ctx, ev, MaterializeStep(ctx, ev, db, t).value, t, i, h)
  {
    var after := MaterializeStep(ctx, ev, db, t).value;
    StepKeepsStore(ctx, ev, db, t);
    StepPushesProposals(ctx, ev, db, t, i, h);
    var pairs := StepPairs(ctx, ev, db, t);
    FoundationFacts(ctx, ev, ev.candidates[i]);
    SampleRowUnique(after.samples, pairs[i].0);
    MarkedIffLeads(ctx, ev, db, t, i);
    PushedIsNewest(after.measurements, pairs[i].0, h, Contents(db.measurements, pairs[i].0, h),
                   ProposalFor(ctx, ev, pairs[i].1, h, t, pairs[i].0 in RepresentativeIds(pairs)).content);
  }

  /** Whatever happened before, a successful step leaves every chain ending in the current proposal. */
  lemma RunEndsAtProposal(ctx: Context, w: World, events: seq<Event>, t: Instant, i: nat, h: int)
    requires ValidCalendar(ctx.cal) && ValidWorld(ctx, w) && Horizon(h)
    requires i < |Run(ctx, w, events).ev.candidates|
    requires MaterializeStep(ctx, Run(ctx, w, events).ev, Run(ctx, w, events).db, t).Ok?
    ensures Run(ctx, w, events + [Materialize(t)]).ev == Run(ctx, w, events).ev
    ensures EndsAtProposal(ctx, Run(ctx, w, events).ev, Run(ctx, w, events + [Materialize(t)]).db, t, i, h)
  {
    assert (events + [Materialize(t)])[..|events|] == events;
    StepEndsAtProposal(ctx, Run(ctx, w, events).ev, Run(ctx, w, events).db, t, i, h);
  }

  // ---------------------------------------------------------------- one primary row a window

  ghost predicate HasCandidate(ev: Evidence, id: int) {
    exists j :: 0 <= j < |ev.candidates| && ev.candidates[j].id == id
  }

  /** Every stored sample belongs to a candidate. */
  ghost predicate Owned(ev: Evidence, samples: seq<Sample>) {
    forall i :: 0 <= i < |samples| ==> HasCandidate(ev, samples[i].values.candidateId)
  }

  lemma OwnedAfterAbsorb(w: World, e: Event)
    requires Owned(w.ev, w.db.samples)
    ensures Owned(Absorb(w.ev, e), w.db.samples)
  {
    var later := Absorb(w.ev, e);
    forall i | 0 <= i < |w.db.samples|
      ensures HasCandidate(later, w.db.samples[i].values.candidateId)
    {
      assert HasCandidate(w.ev, w.db.samples[i].values.candidateId);
      var j :| 0 <= j < |w.ev.candidates| && w.ev.candidates[j].id == w.db.samples[i].values.candidateId;
      assert later.candidates[j] == w.ev.candidates[j];
    }
  }

  lemma OwnedAfterStep(ctx: Context, ev: Evidence, db: Db, t: Instant)
    requires ValidCalendar(ctx.cal) && ValidEvidence(ev) && UniqueSamples(db.samples)
    requires Owned(ev, db.samples) && MaterializeStep(ctx, ev, db, t).Ok?
    ensures Owned(ev, MaterializeStep(ctx, ev, db, t).value.samples)
  {
    var rebuilt := Foundations(ctx, ev);
    var after := EnsureAll(rebuilt, db.samples, ev.candidates, t).value.0;
    EnsureAllAdds(rebuilt, db.samples, ev.candidates, t);
    forall i | 0 <= i < |after|
      ensures HasCandidate(ev, after[i].values.candidateId)
    {
      if i >= |db.samples| {
        assert AddedFor(rebuilt, ev.candidates, t, after[i]);
        var j :| 0 <= j < |ev.candidates| && rebuilt(ev.candidates[j]) == Some(after[i].values);
        FoundationFacts(ctx, ev, ev.candidates[j]);
      } else {
        assert after[i] == db.samples[i] && HasCandidate(ev, db.samples[i].values.candidateId);
      }
    }
  }

  /** Over the whole sample table, at most one newest measurement per (window, horizon) is primary. */
  ghost predicate OnePrimary(db: Db) {
    forall a: nat, b: nat, h :: BothPrimary(db, a, b, h) ==> a == b
  }

  /** Rows `a` and `b` are of one window and their newest measurements of horizon `h` are primary. */
  predicate BothPrimary(db: Db, a: nat, b: nat, h: int) {
    && a < |db.samples| && b < |db.samples| && Horizon(h)
    && db.samples[a].values.windowKey == db.samples[b].values.windowKey
    && NewestIsPrimary(db.measurements, a, h) && NewestIsPrimary(db.measurements, b, h)
  }

  /** After a step every row is the row of one of its pairs. */
  lemma RowHasPair(ctx: Context, ev: Evidence, db: Db, t: Instant, row: nat) returns (i: nat)
    requires ValidCalendar(ctx.cal) && ValidEvidence(ev) && ValidDb(ctx.cal, db)
    requires Owned(ev, db.samples) && MaterializeStep(ctx, ev, db, t).Ok?
    requires row < |MaterializeStep(ctx, ev, db, t).value.samples|
    ensures i < |ev.candidates| == |StepPairs(ctx, ev, db, t)| && StepPairs(ctx, ev, db, t)[i].0 == row
    ensures StepPairs(ctx, ev, db, t)[i].1 == MaterializeStep(ctx, ev, db, t).value.samples[row].values
  {
    var samples := MaterializeStep(ctx, ev, db, t).value.samples;
    OwnedAfterStep(ctx, ev, db, t);
    StepKeepsStore(ctx, ev, db, t);
    assert HasCandidate(ev, samples[row].values.candidateId);
    i :| 0 <= i < |ev.candidates| && ev.candidates[i].id == samples[row].values.candidateId;
    StepPairFacts(ctx, ev, db, t, i);
    FoundationFacts(ctx, ev, ev.candidates[i]);
    SampleRowUnique(samples, row);
    SampleRowUnique(samples, StepPairs(ctx, ev, db, t)[i].0);
  }

  lemma OnePrimaryAfterStep(ctx: Context, ev: Evidence, db: Db, t: Instant)
    requires ValidCalendar(ctx.cal) && ValidEvidence(ev) && ValidDb(ctx.cal, db)
    requires Owned(ev, db.samples) && MaterializeStep(ctx, ev, db, t).Ok?
    ensures OnePrimary(MaterializeStep(ctx, ev, db, t).value)
  {
    var after := MaterializeStep(ctx, ev, db, t).value;
    forall a: nat, b: nat, h | BothPrimary(after, a, b, h)
      ensures a == b
    {
      var i := RowHasPair(ctx, ev, db, t, a);
      var j := RowHasPair(ctx, ev, db, t, b);
      OnePrimaryPerWindow(ctx, ev, db, t, i, j, h);
    }
  }

  /** Over every run, at every moment and over all stored samples, at most one newest measurement
      per (window, horizon) is primary. */
  lemma {:induction false} RunKeepsOnePrimary(ctx: Context, w: World, events: seq<Event>)
    requires ValidCalendar(ctx.cal) && ValidWorld(ctx, w) && Owned(w.ev, w.db.samples) && OnePrimary(w.db)
    ensures var w' := Run(ctx, w, events); Owned(w'.ev, w'.db.samples) && OnePrimary(w'.db)
  {
    if events != [] {
      RunKeepsOnePrimary(ctx, w, events[..|events| - 1]);
      StepKeepsOnePrimary(ctx, Run(ctx, w, events[..|events| - 1]), events[|events| - 1]);
    }
  }

  lemma StepKeepsOnePrimary(ctx: Context, w: World, e: Event)
    requires ValidCalendar(ctx.cal) && ValidWorld(ctx, w) && Owned(w.ev, w.db.samples) && OnePrimary(w.db)
    ensures var w' := Step(ctx, w, e); Owned(w'.ev, w'.db.samples) && OnePrimary(w'.db)
  {
    if e.Materialize? {
      if MaterializeStep(ctx, w.ev, w.db, e.at).Ok? {
        OwnedAfterStep(ctx, w.ev, w.db, e.at);
        OnePrimaryAfterStep(ctx, w.ev, w.db, e.at);
      }
    } else {
      OwnedAfterAbsorb(w, e);
    }
  }

  // ---------------------------------------------------------------- sample stability

  ghost predicate Known(ctx: Context, ev: Evidence, c: ProductCandidate) {
    SameDayKnown(ctx, BuildHistory(ctx.parse, ev.payloads), c)
  }

  /** `later` holds at least the baselines of `ev`, with unique ids. */
  ghost predicate BaselinesGrow(ev: Evidence, later: Evidence) {
    ev.baselines <= later.baselines && DistinctBaselineIds(later.baselines)
  }

  /** The exact condition for a stored sample to survive new evidence: the frozen baseline is
      still the same one, and the same-day proof is unchanged or first knowledge was not post-close. */
  lemma SampleSurvivesIff(ctx: Context, ev: Evidence, later: Evidence, c: ProductCandidate)
    requires ValidCalendar(ctx.cal) && BaselinesGrow(ev, later)
    requires c.scanRunId in ev.runs && c.scanRunId in later.runs && ev.runs[c.scanRunId] == later.runs[c.scanRunId]
    ensures Foundations(ctx, ev)(c) == Foundations(ctx, later)(c)
      <==> && SelectFrozenBaseline(ev.baselines, c.id) == SelectFrozenBaseline(later.baselines, c.id)
           && (Known(ctx, ev, c) == Known(ctx, later, c) || !PostClose(ctx.cal, c.firstKnowledge))
  {
    var a, b := SelectFrozenBaseline(ev.baselines, c.id), SelectFrozenBaseline(later.baselines, c.id);
    FrozenBaselineIsEarliest(ev.baselines, c.id);
    FrozenBaselineIsEarliest(later.baselines, c.id);
    if a.Some? && b.Some? && a.value.id == b.value.id {
      var i :| 0 <= i < |ev.baselines| && ev.baselines[i] == a.value;
      var j :| 0 <= j < |later.baselines| && later.baselines[j] == b.value;
      assert later.baselines[i] == a.value;
      assert i == j;
    }
    FoundationStableIff(ctx.cal, c, ev.runs[c.scanRunId], a, b, Known(ctx, ev, c), Known(ctx, later, c));
  }

  /** Payloads of other tickers, or received after first knowledge, do not move the same-day proof. */
  lemma ProofIgnoresLaterPayload(ctx: Context, payloads: seq<RawPayload>, p: RawPayload, c: ProductCandidate)
    requires UniqueIds(payloads) && UniqueIds(payloads + [p])
    requires p.ticker != c.ticker || c.firstKnowledge < p.receivedAt
    ensures SameDayKnown(ctx, BuildHistory(ctx.parse, payloads), c)
         == SameDayKnown(ctx, BuildHistory(ctx.parse, payloads + [p]), c)
  {
    var day := ctx.cal.day(c.firstKnowledge);
    LookupInBuilt(ctx.parse, payloads, c.ticker, day, c.firstKnowledge);
    LookupInBuilt(ctx.parse, payloads + [p], c.ticker, day, c.firstKnowledge);
    LookupSeesOnlyReceivedPayloads(ctx.parse, payloads, payloads + [p], c.ticker, day, c.firstKnowledge);
  }

  /** Evidence that respects time: a candidate whose sample exists gets only later baselines next to
      one it already has, and only payloads received after its first knowledge. */
  ghost predicate Timely(w: World, e: Event) {
    match e
    case BaselineFrozen(b) =>
      && b.kind == FirstKnowledgeBaseline && SampleRow(w.db.samples, b.candidateId).Some?
      ==> SelectFrozenBaseline(w.ev.baselines, b.candidateId).Some?
          && SelectFrozenBaseline(w.ev.baselines, b.candidateId).value.evaluatedAt < b.evaluatedAt
    case PayloadReceived(p) =>
      forall i :: 0 <= i < |w.ev.candidates| && SampleRow(w.db.samples, w.ev.candidates[i].id).Some? ==>
        w.ev.candidates[i].ticker != p.ticker || w.ev.candidates[i].firstKnowledge < p.receivedAt
    case _ => true
  }

  /** Every candidate has its run, and every stored sample still equals its rebuilt foundation. */
  ghost predicate InSync(ctx: Context, w: World) {
    && (forall i :: 0 <= i < |w.ev.candidates| ==> !Blocked(Foundations(ctx, w.ev), w.db.samples, w.ev.candidates[i]))
    && Owned(w.ev, w.db.samples)
  }

  lemma SyncAfterBaseline(ctx: Context, w: World, b: Baseline, i: nat)
    requires ValidCalendar(ctx.cal) && ValidWorld(ctx, w) && InSync(ctx, w) && Timely(w, BaselineFrozen(b))
    requires forall k :: 0 <= k < |w.ev.baselines| ==> w.ev.baselines[k].id != b.id
    requires i < |w.ev.candidates|
    ensures !Blocked(Foundations(ctx, w.ev.(baselines := w.ev.baselines + [b])), w.db.samples, w.ev.candidates[i])
  {
    var c, later := w.ev.candidates[i], w.ev.(baselines := w.ev.baselines + [b]);
    assert !Blocked(Foundations(ctx, w.ev), w.db.samples, c);
    if SampleRow(w.db.samples, c.id).Some? {
      if IsBaselineOf(b, c.id) {
        LaterBaselinesIgnored(w.ev.baselines, [b], c.id);
      } else {
        assert later.baselines[..|later.baselines| - 1] == w.ev.baselines;
      }
      SampleSurvivesIff(ctx, w.ev, later, c);
    }
  }

  lemma SyncAfterPayload(ctx: Context, w: World, p: RawPayload, i: nat)
    requires ValidCalendar(ctx.cal) && ValidWorld(ctx, w) && InSync(ctx, w) && Timely(w, PayloadReceived(p))
    requires forall k :: 0 <= k < |w.ev.payloads| ==> w.ev.payloads[k].id != p.id
    requires i < |w.ev.candidates|
    ensures !Blocked(Foundations(ctx, w.ev.(payloads := w.ev.payloads + [p])), w.db.samples, w.ev.candidates[i])
  {
    var c, later := w.ev.candidates[i], w.ev.(payloads := w.ev.payloads + [p]);
    assert !Blocked(Foundations(ctx, w.ev), w.db.samples, c);
    if SampleRow(w.db.samples, c.id).Some? {
      ProofIgnoresLaterPayload(ctx, w.ev.payloads, p, c);
      SampleSurvivesIff(ctx, w.ev, later, c);
    }
  }

  lemma SyncAfterCandidate(ctx: Context, w: World, c: ProductCandidate, run: ScanRun)
    requires ValidCalendar(ctx.cal) && ValidWorld(ctx, w) && InSync(ctx, w) && FreshCandidate(w.ev, c, run)
    ensures InSync(ctx, Step(ctx, w, CandidateMaterialized(c, run)))
  {
    var later := Absorb(w.ev, CandidateMaterialized(c, run));
    forall i | 0 <= i < |later.candidates|
      ensures !Blocked(Foundations(ctx, later), w.db.samples, later.candidates[i])
    {
      if i < |w.ev.candidates| {
        assert !Blocked(Foundations(ctx, w.ev), w.db.samples, w.ev.candidates[i]);
        assert later.candidates[i] == w.ev.candidates[i];
      } else {
        assert SampleRow(w.db.samples, c.id).Some? ==> HasCandidate(w.ev, c.id);
      }
    }
    OwnedAfterAbsorb(w, CandidateMaterialized(c, run));
  }

  lemma SyncAfterStep(ctx: Context, w: World, t: Instant)
    requires ValidCalendar(ctx.cal) && ValidWorld(ctx, w) && InSync(ctx, w)
    ensures MaterializeStep(ctx, w.ev, w.db, t).Ok? && InSync(ctx, Step(ctx, w, Materialize(t)))
  {
    StepFailsIff(ctx, w.ev, w.db, t);
    StepKeepsStore(ctx, w.ev, w.db, t);
    var after := MaterializeStep(ctx, w.ev, w.db, t).value;
    forall i | 0 <= i < |w.ev.candidates|
      ensures !Blocked(Foundations(ctx, w.ev), after.samples, w.ev.candidates[i])
    {
      StepPairFacts(ctx, w.ev, w.db, t, i);
      FoundationFacts(ctx, w.ev, w.ev.candidates[i]);
      SampleRowUnique(after.samples, StepPairs(ctx, w.ev, w.db, t)[i].0);
    }
    OwnedAfterStep(ctx, w.ev, w.db, t);
  }

  lemma SyncAfterEvent(ctx: Context, w: World, e: Event)
    requires ValidCalendar(ctx.cal) && ValidWorld(ctx, w) && InSync(ctx, w) && Timely(w, e)
    ensures InSync(ctx, Step(ctx, w, e))
  {
    var later := Absorb(w.ev, e);
    if later == w.ev && !e.Materialize? {
      return;
    }
    OwnedAfterAbsorb(w, e);
    match e
    case CandidateMaterialized(c, run) => SyncAfterCandidate(ctx, w, c, run);
    case BaselineFrozen(b) =>
      forall i | 0 <= i < |w.ev.candidates|
        ensures !Blocked(Foundations(ctx, later), w.db.samples, w.ev.candidates[i])
      {
        SyncAfterBaseline(ctx, w, b, i);
      }
    case PayloadReceived(p) =>
      forall i | 0 <= i < |w.ev.candidates|
        ensures !Blocked(Foundations(ctx, later), w.db.samples, w.ev.candidates[i])
      {
        SyncAfterPayload(ctx, w, p, i);
      }
    case ActionRecorded(a) =>
      forall i | 0 <= i < |w.ev.candidates|
        ensures !Blocked(Foundations(ctx, later), w.db.samples, w.ev.candidates[i])
      {
        assert !Blocked(Foundations(ctx, w.ev), w.db.samples, w.ev.candidates[i]);
      }
    case Materialize(t) => SyncAfterStep(ctx, w, t);
  }

  ghost predicate TimelyRun(ctx: Context, w: World, events: seq<Event>)
    requires ValidCalendar(ctx.cal) && ValidWorld(ctx, w)
  {
    forall n :: 0 <= n < |events| ==> Timely(Run(ctx, w, events[..n]), events[n])
  }

  /** Over every run whose evidence respects time, stored samples stay identical to their rebuilt
      foundations, so no step ever raises the immutability conflict. */
  lemma {:induction false} TimelyRunsNeverConflict(ctx: Context, w: World, events: seq<Event>, t: Instant)
    requires ValidCalendar(ctx.cal) && ValidWorld(ctx, w) && InSync(ctx, w) && TimelyRun(ctx, w, events)
    ensures InSync(ctx, Run(ctx, w, events))
    ensures MaterializeStep(ctx, Run(ctx, w, events).ev, Run(ctx, w, events).db, t).Ok?
  {
    if events != [] {
      var front := events[..|events| - 1];
      forall n | 0 <= n < |front|
        ensures Timely(Run(ctx, w, front[..n]), front[n])
      {
        assert front[..n] == events[..n];
      }
      TimelyRunsNeverConflict(ctx, w, front, t);
      SyncAfterEvent(ctx, Run(ctx, w, front), events[|events| - 1]);
    }
    SyncAfterStep(ctx, Run(ctx, w, events), t);
  }

  /** Candidate `i` has a frozen baseline, and a sample stored without one. */
  ghost predicate Stuck(w: World, i: nat) {
    && i < |w.ev.candidates|
    && SelectFrozenBaseline(w.ev.baselines, w.ev.candidates[i].id).Some?
    && var row := SampleRow(w.db.samples, w.ev.candidates[i].id);
       row.Some? && w.db.samples[row.value].values.baselineId.None?
  }

  lemma StuckFails(ctx: Context, w: World, i: nat, t: Instant)
    requires ValidCalendar(ctx.cal) && ValidWorld(ctx, w) && Stuck(w, i)
    ensures MaterializeStep(ctx, w.ev, w.db, t).Err?
  {
    assert Blocked(Foundations(ctx, w.ev), w.db.samples, w.ev.candidates[i]);
    StepFailsIff(ctx, w.ev, w.db, t);
  }

  lemma StuckStays(ctx: Context, w: World, i: nat, e: Event)
    requires ValidCalendar(ctx.cal) && ValidWorld(ctx, w) && Stuck(w, i)
    ensures Stuck(Step(ctx, w, e), i) && Step(ctx, w, e).db == w.db
  {
    match e
    case Materialize(t) => StuckFails(ctx, w, i, t);
    case BaselineFrozen(b) =>
      var later := w.ev.baselines + [b];
      assert later[..|later| - 1] == w.ev.baselines;
    case _ =>
  }

  /** From a stuck world on, whatever arrives and however often it is tried, no step succeeds and the
      tables never change again. */
  lemma {:induction false} StuckForever(ctx: Context, w: World, i: nat, events: seq<Event>, t: Instant)
    requires ValidCalendar(ctx.cal) && ValidWorld(ctx, w) && Stuck(w, i)
    ensures var w' := Run(ctx, w, events);
      Stuck(w', i) && w'.db == w.db && MaterializeStep(ctx, w'.ev, w'.db, t).Err?
  {
    if events != [] {
      var front := events[..|events| - 1];
      StuckForever(ctx, w, i, front, t);
      StuckStays(ctx, Run(ctx, w, front), i, events[|events| - 1]);
    }
    StuckFails(ctx, Run(ctx, w, events), i, t);
  }

  lemma SampledWithout(ctx: Context, ev: Evidence, samples: seq<Sample>, c: ProductCandidate)
    requires !Blocked(Foundations(ctx, ev), samples, c)
    requires SampleRow(samples, c.id).Some? && SelectFrozenBaseline(ev.baselines, c.id).None?
    ensures samples[SampleRow(samples, c.id).value].values.baselineId.None?
  {
  }

  lemma FreezingSticks(ctx: Context, w: World, i: nat, b: Baseline)
    requires ValidCalendar(ctx.cal) && ValidWorld(ctx, w) && InSync(ctx, w) && i < |w.ev.candidates|
    requires SampleRow(w.db.samples, w.ev.candidates[i].id).Some?
    requires SelectFrozenBaseline(w.ev.baselines, w.ev.candidates[i].id).None? && IsBaselineOf(b, w.ev.candidates[i].id)
    requires forall k :: 0 <= k < |w.ev.baselines| ==> w.ev.baselines[k].id != b.id
    ensures Stuck(Step(ctx, w, BaselineFrozen(b)), i) && Step(ctx, w, BaselineFrozen(b)).db == w.db
  {
    SampledWithout(ctx, w.ev, w.db.samples, w.ev.candidates[i]);
    FrozenNow(w.ev.baselines, b, w.ev.candidates[i].id);
    assert Absorb(w.ev, BaselineFrozen(b)) == w.ev.(baselines := w.ev.baselines + [b]);
  }

  lemma FrozenNow(baselines: seq<Baseline>, b: Baseline, candidateId: int)
    requires IsBaselineOf(b, candidateId)
    ensures SelectFrozenBaseline(baselines + [b], candidateId).Some?
  {
    assert (baselines + [b])[..|baselines + [b]| - 1] == baselines;
  }

  /** The discipline is needed: when a candidate was sampled before its baseline was frozen, freezing
      the baseline makes every later step fail, over every sequence of events afterwards. */
  lemma FirstBaselineAfterSampleBlocks(ctx: Context, w: World, i: nat, b: Baseline, events: seq<Event>, t: Instant)
    requires ValidCalendar(ctx.cal) && ValidWorld(ctx, w) && InSync(ctx, w) && i < |w.ev.candidates|
    requires SampleRow(w.db.samples, w.ev.candidates[i].id).Some?
    requires SelectFrozenBaseline(w.ev.baselines, w.ev.candidates[i].id).None?
    requires IsBaselineOf(b, w.ev.candidates[i].id)
    requires forall k :: 0 <= k < |w.ev.baselines| ==> w.ev.baselines[k].id != b.id
    ensures ValidWorld(ctx, Step(ctx, w, BaselineFrozen(b)))
    ensures var w' := Run(ctx, Step(ctx, w, BaselineFrozen(b)), events);
      w'.db == w.db && MaterializeStep(ctx, w'.ev, w'.db, t).Err?
  {
    StepKeepsWorld(ctx, w, BaselineFrozen(b));
    FreezingSticks(ctx, w, i, b);
    StuckForever(ctx, Step(ctx, w, BaselineFrozen(b)), i, events, t);
  }

  function Nothing(): World { World(Evidence([], map[], [], [], []), Db([], [])) }

  lemma FirstCandidate(ctx: Context, c: ProductCandidate, run: ScanRun)
    requires ValidCalendar(ctx.cal) && c.scanRunId == run.id
    ensures var w := Absorb(Nothing().ev, CandidateMaterialized(c, run));
      && ValidWorld(ctx, Nothing()) && ValidWorld(ctx, World(w, Nothing().db)) && InSync(ctx, World(w, Nothing().db))
      && w.candidates == [c] && w.baselines == []
  {
    assert InSync(ctx, Nothing());
    SyncAfterCandidate(ctx, Nothing(), c, run);
    StepKeepsWorld(ctx, Nothing(), CandidateMaterialized(c, run));
  }

  lemma SampledByStep(ctx: Context, w: World, t: Instant, i: nat)
    requires ValidCalendar(ctx.cal) && ValidWorld(ctx, w) && InSync(ctx, w) && i < |w.ev.candidates|
    ensures var w' := Step(ctx, w, Materialize(t));
      && ValidWorld(ctx, w') && InSync(ctx, w') && w'.ev == w.ev
      && SampleRow(w'.db.samples, w.ev.candidates[i].id).Some?
  {
    SyncAfterStep(ctx, w, t);
    StepKeepsWorld(ctx, w, Materialize(t));
    StepPairFacts(ctx, w.ev, w.db, t, i);
    FoundationFacts(ctx, w.ev, w.ev.candidates[i]);
    SampleRowUnique(Step(ctx, w, Materialize(t)).db.samples, StepPairs(ctx, w.ev, w.db, t)[i].0);
  }

  /** And such a run exists: materialize one candidate, take a step, then freeze its baseline;
      whatever follows, the next step fails. */
  lemma LateBaselineRun(
      ctx: Context, c: ProductCandidate, run: ScanRun, b: Baseline, t: Instant, events: seq<Event>, t': Instant)
    requires ValidCalendar(ctx.cal) && c.scanRunId == run.id && IsBaselineOf(b, c.id)
    ensures ValidWorld(ctx, Nothing())
    ensures var w := Run(ctx, Nothing(), [CandidateMaterialized(c, run), Materialize(t), BaselineFrozen(b)] + events);
      MaterializeStep(ctx, w.ev, w.db, t').Err?
  {
    FirstCandidate(ctx, c, run);
    var w1 := World(Absorb(Nothing().ev, CandidateMaterialized(c, run)), Nothing().db);
    SampledByStep(ctx, w1, t, 0);
    var w2 := Step(ctx, w1, Materialize(t));
    FirstBaselineAfterSampleBlocks(ctx, w2, 0, b, events, t');
    RunOfThree(ctx, Nothing(), CandidateMaterialized(c, run), Materialize(t), BaselineFrozen(b));
    RunConcat(ctx, Nothing(), [CandidateMaterialized(c, run), Materialize(t), BaselineFrozen(b)], events);
  }

  lemma {:induction false} RunConcat(ctx: Context, w: World, first: seq<Event>, rest: seq<Event>)
    requires ValidCalendar(ctx.cal) && ValidWorld(ctx, w)
    ensures Run(ctx, w, first + rest) == Run(ctx, Run(ctx, w, first), rest)
  {
    if rest == [] {
      assert first + rest == first;
    } else {
      RunConcat(ctx, w, first, rest[..|rest| - 1]);
      assert (first + rest)[..|first + rest| - 1] == first + rest[..|rest| - 1];
    }
  }

  lemma RunOfThree(ctx: Context, w: World, a: Event, b: Event, c: Event)
    requires ValidCalendar(ctx.cal) && ValidWorld(ctx, w)
    ensures ValidWorld(ctx, Step(ctx, w, a)) && ValidWorld(ctx, Step(ctx, Step(ctx, w, a), b))
    ensures Run(ctx, w, [a, b, c]) == Step(ctx, Step(ctx, Step(ctx, w, a), b), c)
  {
    StepKeepsWorld(ctx, w, a);
    StepKeepsWorld(ctx, Step(ctx, w, a), b);
    assert [a, b, c][..2] == [a, b] && [a, b][..1] == [a] && [a][..0] == [];
    assert Run(ctx, w, [a][..0]) == w;
    assert Run(ctx, w, [a]) == Step(ctx, w, a);
    assert Run(ctx, w, [a, b]) == Step(ctx, Step(ctx, w, a), b);
  }
}
