/** What every materialization step keeps, over all runs of growing evidence. */
module OutcomeRuns {
  import opened Prelude
  import opened TradingCalendar
  import opened CanonicalDaily
  import opened OhlcCatalog
  import opened ForwardOutcome
  import opened ResearchSamples
  import opened CorporateActions
  import opened Representatives
  import opened SampleTable
  import opened OutcomeProposals
  import opened MeasurementChain
  import opened OutcomeStore

  // ---------------------------------------------------------------- one step

  ghost predicate RowsBelong(ms: Table, samples: seq<Sample>) {
    forall k :: 0 <= k < |ms| ==> ms[k].sample < |samples|
  }

  /** The invariant of the store: unique checked samples, checked revision chains, no orphan rows. */
  ghost predicate ValidDb(c: Calendar, db: Db) {
    && UniqueSamples(db.samples) && SoundSamples(c, db.samples)
    && ValidTable(db.measurements) && RowsBelong(db.measurements, db.samples)
  }

  /** The candidates' stored rows and foundations during a successful step. */
  function StepPairs(ctx: Context, ev: Evidence, db: Db, t: Instant): seq<Pair>
    requires EnsureAll(Foundations(ctx, ev), db.samples, ev.candidates, t).Ok?
  {
    EnsureAll(Foundations(ctx, ev), db.samples, ev.candidates, t).value.1
  }

  lemma {:induction false} AppendAllRows(ms: Table, items: seq<Item>, t: Instant, samples: seq<Sample>)
    requires RowsBelong(ms, samples) && forall i :: 0 <= i < |items| ==> items[i].sample < |samples|
    ensures RowsBelong(AppendAll(ms, items, t), samples)
  {
    if items != [] { AppendAllRows(ms, items[..|items| - 1], t, samples); }
  }

  lemma AddedSamplesSound(ctx: Context, ev: Evidence, samples: seq<Sample>, t: Instant)
    requires ValidCalendar(ctx.cal) && SoundSamples(ctx.cal, samples)
    requires EnsureAll(Foundations(ctx, ev), samples, ev.candidates, t).Ok?
    ensures SoundSamples(ctx.cal, EnsureAll(Foundations(ctx, ev), samples, ev.candidates, t).value.0)
  {
    RebuiltFacts(ctx, ev);
    EnsureAllAdds(Foundations(ctx, ev), samples, ev.candidates, t);
    var after := EnsureAll(Foundations(ctx, ev), samples, ev.candidates, t).value.0;
    forall i | 0 <= i < |after|
      ensures SoundFoundation(ctx.cal, after[i].values)
    {
      if i >= |samples| {
        assert AddedFor(Foundations(ctx, ev), ev.candidates, t, after[i]);
        var j :| 0 <= j < |ev.candidates| && Foundations(ctx, ev)(ev.candidates[j]) == Some(after[i].values);
      }
    }
  }

  /** A step keeps the invariant and only ever appends. */
  lemma StepKeepsStore(ctx: Context, ev: Evidence, db: Db, t: Instant)
    requires ValidCalendar(ctx.cal) && ValidEvidence(ev) && ValidDb(ctx.cal, db)
    ensures var r := MaterializeStep(ctx, ev, db, t);
      r.Ok? ==> ValidDb(ctx.cal, r.value) && db.samples <= r.value.samples && db.measurements <= r.value.measurements
  {
    if MaterializeStep(ctx, ev, db, t).Ok? {
      PairsAnswer(ctx, ev, db.samples, t);
      AddedSamplesSound(ctx, ev, db.samples, t);
      var samples, pairs := EnsureAll(Foundations(ctx, ev), db.samples, ev.candidates, t).value.0, StepPairs(ctx, ev, db, t);
      var propose, ids := ProposerOf(ctx, ev, t), RepresentativeIds(pairs);
      PairRowsExist(Foundations(ctx, ev), samples, ev.candidates, pairs);
      ItemsFacts(propose, pairs, ids);
      ItemRows(propose, pairs, ids);
      AppendAllKeepsValid(db.measurements, Items(propose, pairs, ids), t);
      AppendAllRows(db.measurements, Items(propose, pairs, ids), t, samples);
    }
  }

  lemma PairRowsExist(rebuilt: Rebuilt, samples: seq<Sample>, candidates: seq<ProductCandidate>, pairs: seq<Pair>)
    requires PairsMatch(rebuilt, samples, candidates, pairs)
    ensures forall i :: 0 <= i < |pairs| ==> pairs[i].0 < |samples|
  {
    forall i | 0 <= i < |pairs|
      ensures pairs[i].0 < |samples|
    {
      assert PairMatches(rebuilt, samples, candidates[i], pairs[i]);
    }
  }

  /** Every item of a pass is for the row of its pair. */
  lemma ItemRows(propose: Proposer, pairs: seq<Pair>, ids: set<nat>)
    requires forall i :: 0 <= i < |pairs| ==> Answers(propose, pairs[i].1)
    ensures forall k :: 0 <= k < |Items(propose, pairs, ids)| ==> Items(propose, pairs, ids)[k].sample == pairs[k / 3].0
  {
  }

  lemma PairsAreDistinct(ctx: Context, ev: Evidence, db: Db, t: Instant)
    requires ValidCalendar(ctx.cal) && ValidEvidence(ev) && UniqueSamples(db.samples)
    requires EnsureAll(Foundations(ctx, ev), db.samples, ev.candidates, t).Ok?
    ensures DistinctRows(StepPairs(ctx, ev, db, t)) && DistinctCandidates(StepPairs(ctx, ev, db, t))
  {
    var pairs := StepPairs(ctx, ev, db, t);
    var samples := EnsureAll(Foundations(ctx, ev), db.samples, ev.candidates, t).value.0;
    PairsAnswer(ctx, ev, db.samples, t);
    RebuiltFacts(ctx, ev);
    forall i | 0 <= i < |pairs|
      ensures pairs[i].0 < |samples| && samples[pairs[i].0].values.candidateId == ev.candidates[i].id == pairs[i].1.candidateId
    {
      assert PairMatches(Foundations(ctx, ev), samples, ev.candidates[i], pairs[i]);
    }
  }

  /** Item `k` of a pass is the proposal for pair k / 3 on horizon k % 3. */
  lemma ItemContent(ctx: Context, ev: Evidence, t: Instant, pairs: seq<Pair>, ids: set<nat>, k: nat)
    requires ValidCalendar(ctx.cal) && UniqueIds(ev.payloads) && k < 3 * |pairs|
    requires forall i :: 0 <= i < |pairs| ==> Answers(ProposerOf(ctx, ev, t), pairs[i].1)
    requires Planned(ctx.cal, pairs[k / 3].1)
    ensures Items(ProposerOf(ctx, ev, t), pairs, ids)[k]
         == Item(pairs[k / 3].0, ProposalFor(ctx, ev, pairs[k / 3].1, HorizonAt(k), t, pairs[k / 3].0 in ids).content)
  {
  }

  /** The proposals of a step, in the order of its nested loops. */
  function StepItems(ctx: Context, ev: Evidence, db: Db, t: Instant): seq<Item>
    requires ValidCalendar(ctx.cal) && ValidEvidence(ev) && UniqueSamples(db.samples)
    requires EnsureAll(Foundations(ctx, ev), db.samples, ev.candidates, t).Ok?
  {
    PairsAnswer(ctx, ev, db.samples, t);
    Items(ProposerOf(ctx, ev, t), StepPairs(ctx, ev, db, t), RepresentativeIds(StepPairs(ctx, ev, db, t)))
  }

  lemma StepPairFacts(ctx: Context, ev: Evidence, db: Db, t: Instant, i: nat)
    requires ValidCalendar(ctx.cal) && ValidEvidence(ev) && ValidDb(ctx.cal, db)
    requires MaterializeStep(ctx, ev, db, t).Ok? && i < |ev.candidates|
    ensures |StepPairs(ctx, ev, db, t)| == |ev.candidates|
    ensures var after, pair := MaterializeStep(ctx, ev, db, t).value, StepPairs(ctx, ev, db, t)[i];
      && Foundations(ctx, ev)(ev.candidates[i]) == Some(pair.1) && Planned(ctx.cal, pair.1)
      && pair.0 < |after.samples| && after.samples[pair.0].values == pair.1
  {
    PairsAnswer(ctx, ev, db.samples, t);
    var samples := EnsureAll(Foundations(ctx, ev), db.samples, ev.candidates, t).value.0;
    assert PairMatches(Foundations(ctx, ev), samples, ev.candidates[i], StepPairs(ctx, ev, db, t)[i]);
  }

  lemma StepItemPushes(ctx: Context, ev: Evidence, db: Db, t: Instant, k: nat)
    requires ValidCalendar(ctx.cal) && ValidEvidence(ev) && ValidDb(ctx.cal, db)
    requires MaterializeStep(ctx, ev, db, t).Ok? && k < |StepItems(ctx, ev, db, t)|
    ensures var after, item := MaterializeStep(ctx, ev, db, t).value, StepItems(ctx, ev, db, t)[k];
      Contents(after.measurements, item.sample, item.content.horizon)
      == Push(Contents(db.measurements, item.sample, item.content.horizon), item.content)
  {
    PairsAnswer(ctx, ev, db.samples, t);
    PairsAreDistinct(ctx, ev, db, t);
    var pairs := StepPairs(ctx, ev, db, t);
    ItemsFacts(ProposerOf(ctx, ev, t), pairs, RepresentativeIds(pairs));
    AppendAllPushes(db.measurements, StepItems(ctx, ev, db, t), t, k);
  }

  lemma StepItemContent(ctx: Context, ev: Evidence, db: Db, t: Instant, k: nat)
    requires ValidCalendar(ctx.cal) && ValidEvidence(ev) && ValidDb(ctx.cal, db)
    requires MaterializeStep(ctx, ev, db, t).Ok? && k < |StepItems(ctx, ev, db, t)|
    ensures var item, pairs := StepItems(ctx, ev, db, t)[k], StepPairs(ctx, ev, db, t);
      && k / 3 < |pairs| && Planned(ctx.cal, pairs[k / 3].1) && item.content.horizon == HorizonAt(k)
      && item == Item(pairs[k / 3].0,
           ProposalFor(ctx, ev, pairs[k / 3].1, HorizonAt(k), t, pairs[k / 3].0 in RepresentativeIds(pairs)).content)
  {
    PairsAnswer(ctx, ev, db.samples, t);
    var pairs := StepPairs(ctx, ev, db, t);
    ItemContent(ctx, ev, t, pairs, RepresentativeIds(pairs), k);
    ProposalForChecks(ctx, ev, pairs[k / 3].1, HorizonAt(k), t, pairs[k / 3].0 in RepresentativeIds(pairs));
  }

  /** The position of pair `i`'s proposal for horizon `h`. */
  lemma ItemNumber(i: nat, h: int) returns (k: nat)
    requires Horizon(h)
    ensures k / 3 == i && HorizonAt(k) == h && k < 3 * i + 3
  {
    k := 3 * i + (if h == 1 then 0 else if h == 3 then 1 else 2);
  }

  /** After a step, candidate `i` has a row holding its rebuilt foundation, and each of its chains
      is the old chain with the current proposal pushed: the newest revision equals the proposal,
      at most one revision was added, and one was added only because the proposal changed. */
  lemma StepPushesProposals(ctx: Context, ev: Evidence, db: Db, t: Instant, i: nat, h: int)
    requires ValidCalendar(ctx.cal) && ValidEvidence(ev) && ValidDb(ctx.cal, db)
    requires MaterializeStep(ctx, ev, db, t).Ok? && i < |ev.candidates| && Horizon(h)
    ensures |StepPairs(ctx, ev, db, t)| == |ev.candidates|
    ensures var after, pairs := MaterializeStep(ctx, ev, db, t).value, StepPairs(ctx, ev, db, t);
      var row, f := pairs[i].0, pairs[i].1;
      && Foundations(ctx, ev)(ev.candidates[i]) == Some(f) && Planned(ctx.cal, f)
      && row < |after.samples| && after.samples[row].values == f
      && Contents(after.measurements, row, h)
         == Push(Contents(db.measurements, row, h),
                 ProposalFor(ctx, ev, f, h, t, row in RepresentativeIds(pairs)).content)
  {
    StepPairFacts(ctx, ev, db, t, i);
    var k := ItemNumber(i, h);
    assert k < |StepItems(ctx, ev, db, t)|;
    StepItemContent(ctx, ev, db, t, k);
    StepItemPushes(ctx, ev, db, t, k);
  }

  /** The chain of a sample that belongs to no pair of this step is untouched. */
  lemma StepTouchesOnlyCandidates(ctx: Context, ev: Evidence, db: Db, t: Instant, row: nat, h: int)
    requires ValidCalendar(ctx.cal) && ValidEvidence(ev) && ValidDb(ctx.cal, db)
    requires MaterializeStep(ctx, ev, db, t).Ok?
    requires forall i :: 0 <= i < |StepPairs(ctx, ev, db, t)| ==> StepPairs(ctx, ev, db, t)[i].0 != row
    ensures Contents(MaterializeStep(ctx, ev, db, t).value.measurements, row, h) == Contents(db.measurements, row, h)
  {
    PairsAnswer(ctx, ev, db.samples, t);
    var pairs := StepPairs(ctx, ev, db, t);
    var propose, ids := ProposerOf(ctx, ev, t), RepresentativeIds(pairs);
    OthersUntouched(db.measurements, propose, pairs, ids, t, row, h);
  }

  lemma OthersUntouched(ms: Table, propose: Proposer, pairs: seq<Pair>, ids: set<nat>, t: Instant, row: nat, h: int)
    requires ValidTable(ms) && forall i :: 0 <= i < |pairs| ==> Answers(propose, pairs[i].1) && pairs[i].0 != row
    ensures Contents(AppendAll(ms, Items(propose, pairs, ids), t), row, h) == Contents(ms, row, h)
  {
    ItemsFacts(propose, pairs, ids);
    ItemRows(propose, pairs, ids);
    AppendAllOthers(ms, Items(propose, pairs, ids), t, row, h);
  }

  /** A step fails exactly when some candidate has no run or a sample that disagrees with its
      rebuilt foundation. */
  lemma StepFailsIff(ctx: Context, ev: Evidence, db: Db, t: Instant)
    requires ValidCalendar(ctx.cal) && ValidEvidence(ev) && UniqueSamples(db.samples)
    ensures MaterializeStep(ctx, ev, db, t).Err?
       <==> AnyBlocked(Foundations(ctx, ev), db.samples, ev.candidates)
  {
    RebuiltFacts(ctx, ev);
    EnsureAllFailsIff(Foundations(ctx, ev), db.samples, ev.candidates, t);
  }

  // ---------------------------------------------------------------- idempotence

  lemma {:induction false} SampleRowUnique(samples: seq<Sample>, row: nat)
    requires UniqueSamples(samples) && row < |samples|
    ensures SampleRow(samples, samples[row].values.candidateId) == Some(row)
  {
    var found := SampleRow(samples, samples[row].values.candidateId);
    assert found.Some?;
  }

  lemma {:induction false} EnsureAllIdle(
      rebuilt: Rebuilt, samples: seq<Sample>, candidates: seq<ProductCandidate>, pairs: seq<Pair>, t: Instant)
    requires UniqueSamples(samples) && RebuiltForCandidate(rebuilt) && PairsMatch(rebuilt, samples, candidates, pairs)
    ensures EnsureAll(rebuilt, samples, candidates, t) == Ok((samples, pairs))
  {
    if candidates != [] {
      var n := |candidates| - 1;
      assert forall i :: 0 <= i < n ==> PairMatches(rebuilt, samples, candidates[i], pairs[i]);
      EnsureAllIdle(rebuilt, samples, candidates[..n], pairs[..n], t);
      assert PairMatches(rebuilt, samples, candidates[n], pairs[n]);
      SampleRowUnique(samples, pairs[n].0);
      assert pairs == pairs[..n] + [pairs[n]];
    }
  }

  /** The newest measurement of the chain holds `content`. */
  predicate NewestIs(ms: Table, row: nat, h: int, content: Content) {
    var latest := QueryLatest(ms, row, h);
    latest.Some? && ms[latest.value].content == content
  }

  lemma PushedIsNewest(ms: Table, row: nat, h: int, before: seq<Content>, content: Content)
    requires ValidTable(ms) && Contents(ms, row, h) == Push(before, content)
    ensures NewestIs(ms, row, h, content)
  {
    ContentsEnd(ms, row, h);
  }

  /** After a step, every proposal of the step is the newest content of its chain. */
  lemma ItemIsNewest(ctx: Context, ev: Evidence, db: Db, t: Instant, k: nat)
    requires ValidCalendar(ctx.cal) && ValidEvidence(ev) && ValidDb(ctx.cal, db)
    requires MaterializeStep(ctx, ev, db, t).Ok? && k < |StepItems(ctx, ev, db, t)|
    ensures var ms, item := MaterializeStep(ctx, ev, db, t).value.measurements, StepItems(ctx, ev, db, t)[k];
      NewestIs(ms, item.sample, item.content.horizon, item.content)
  {
    StepItemPushes(ctx, ev, db, t, k);
    StepKeepsStore(ctx, ev, db, t);
    var item := StepItems(ctx, ev, db, t)[k];
    PushedIsNewest(MaterializeStep(ctx, ev, db, t).value.measurements, item.sample, item.content.horizon,
                   Contents(db.measurements, item.sample, item.content.horizon), item.content);
  }

  lemma PairsSettle(ctx: Context, ev: Evidence, db: Db, t: Instant)
    requires ValidCalendar(ctx.cal) && ValidEvidence(ev) && ValidDb(ctx.cal, db)
    requires EnsureAll(Foundations(ctx, ev), db.samples, ev.candidates, t).Ok?
    ensures var r := EnsureAll(Foundations(ctx, ev), db.samples, ev.candidates, t);
      EnsureAll(Foundations(ctx, ev), r.value.0, ev.candidates, t) == r
  {
    PairsAnswer(ctx, ev, db.samples, t);
    RebuiltFacts(ctx, ev);
    var r := EnsureAll(Foundations(ctx, ev), db.samples, ev.candidates, t).value;
    EnsureAllIdle(Foundations(ctx, ev), r.0, ev.candidates, r.1, t);
  }

  /** Repeating a step on unchanged evidence inserts nothing. */
  lemma StepIsIdempotent(ctx: Context, ev: Evidence, db: Db, t: Instant)
    requires ValidCalendar(ctx.cal) && ValidEvidence(ev) && ValidDb(ctx.cal, db)
    requires MaterializeStep(ctx, ev, db, t).Ok?
    ensures UniqueSamples(MaterializeStep(ctx, ev, db, t).value.samples)
    ensures MaterializeStep(ctx, ev, MaterializeStep(ctx, ev, db, t).value, t) == MaterializeStep(ctx, ev, db, t)
  {
    var after := MaterializeStep(ctx, ev, db, t).value;
    StepKeepsStore(ctx, ev, db, t);
    PairsSettle(ctx, ev, db, t);
    forall k | 0 <= k < |StepItems(ctx, ev, db, t)|
      ensures var item := StepItems(ctx, ev, db, t)[k];
        NewestIs(after.measurements, item.sample, item.content.horizon, item.content)
    {
      ItemIsNewest(ctx, ev, db, t, k);
    }
    AppendAllIdle(after.measurements, StepItems(ctx, ev, db, t), t);
  }

  // ---------------------------------------------------------------- primary rows

  /** The newest measurement of a sample's horizon is marked primary-descriptive. */
  predicate NewestIsPrimary(ms: Table, row: nat, h: int) {
    var latest := QueryLatest(ms, row, h);
    latest.Some? && ms[latest.value].content.primaryDescriptive
  }

  /** After a step, at most one newest measurement per (window, horizon) is primary-descriptive. */
  lemma OnePrimaryPerWindow(ctx: Context, ev: Evidence, db: Db, t: Instant, i: nat, j: nat, h: int)
    requires ValidCalendar(ctx.cal) && ValidEvidence(ev) && ValidDb(ctx.cal, db)
    requires MaterializeStep(ctx, ev, db, t).Ok? && i < |ev.candidates| && j < |ev.candidates| && Horizon(h)
    ensures |StepPairs(ctx, ev, db, t)| == |ev.candidates|
    ensures var pairs, ms := StepPairs(ctx, ev, db, t), MaterializeStep(ctx, ev, db, t).value.measurements;
      NewestIsPrimary(ms, pairs[i].0, h) && NewestIsPrimary(ms, pairs[j].0, h) ==>
        pairs[i].1.windowKey == pairs[j].1.windowKey ==> i == j
  {
    PairsAnswer(ctx, ev, db.samples, t);
    PairsAreDistinct(ctx, ev, db, t);
    NewestPrimaryRepresents(ctx, ev, db, t, i, h);
    NewestPrimaryRepresents(ctx, ev, db, t, j, h);
    ExactlyOneRepresentative(StepPairs(ctx, ev, db, t), StepPairs(ctx, ev, db, t)[i].1.windowKey);
  }

  lemma NewestPrimaryRepresents(ctx: Context, ev: Evidence, db: Db, t: Instant, i: nat, h: int)
    requires ValidCalendar(ctx.cal) && ValidEvidence(ev) && ValidDb(ctx.cal, db)
    requires MaterializeStep(ctx, ev, db, t).Ok? && i < |ev.candidates| && Horizon(h)
    ensures |StepPairs(ctx, ev, db, t)| == |ev.candidates|
    ensures var pairs, ms := StepPairs(ctx, ev, db, t), MaterializeStep(ctx, ev, db, t).value.measurements;
      NewestIsPrimary(ms, pairs[i].0, h) ==> Represents(pairs, i)
  {
    NewestPrimaryIsMarked(ctx, ev, db, t, i, h);
    PairsAreDistinct(ctx, ev, db, t);
    MarkedIffRepresents(StepPairs(ctx, ev, db, t), i);
  }

  lemma NewestPrimaryIsMarked(ctx: Context, ev: Evidence, db: Db, t: Instant, i: nat, h: int)
    requires ValidCalendar(ctx.cal) && ValidEvidence(ev) && ValidDb(ctx.cal, db)
    requires MaterializeStep(ctx, ev, db, t).Ok? && i < |ev.candidates| && Horizon(h)
    ensures |StepPairs(ctx, ev, db, t)| == |ev.candidates|
    ensures var pairs, ms := StepPairs(ctx, ev, db, t), MaterializeStep(ctx, ev, db, t).value.measurements;
      NewestIsPrimary(ms, pairs[i].0, h) ==> pairs[i].0 in RepresentativeIds(pairs)
  {
    StepKeepsStore(ctx, ev, db, t);
    StepPushesProposals(ctx, ev, db, t, i, h);
    var pairs, ms := StepPairs(ctx, ev, db, t), MaterializeStep(ctx, ev, db, t).value.measurements;
    var content := ProposalFor(ctx, ev, pairs[i].1, h, t, pairs[i].0 in RepresentativeIds(pairs)).content;
    PrimaryOfPush(ms, pairs[i].0, h, Contents(db.measurements, pairs[i].0, h), content);
    ProposalForChecks(ctx, ev, pairs[i].1, h, t, pairs[i].0 in RepresentativeIds(pairs));
  }

  lemma PrimaryOfPush(ms: Table, row: nat, h: int, before: seq<Content>, content: Content)
    requires ValidTable(ms) && Contents(ms, row, h) == Push(before, content)
    ensures NewestIsPrimary(ms, row, h) <==> content.primaryDescriptive
  {
    PushedIsNewest(ms, row, h, before, content);
  }
}
