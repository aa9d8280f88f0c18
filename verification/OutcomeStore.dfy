/** The materialization step over the store of evidence, samples and measurements. */
module OutcomeStore {
  import opened Prelude
  import opened TradingCalendar
  import opened CanonicalDaily
  import opened OhlcCatalog
  import opened ForwardOutcome
  import opened ResearchSamples
  import opened CorporateActions
  import opened Representatives
  import opened SampleTable
  import opened OutcomeProposals
  import opened MeasurementChain

  /** The exchange calendar and the parser of trading-date texts. */
  datatype Context = Context(cal: Calendar, parse: Text -> Option<Date>)

  /** Everything a step reads and never writes. */
  datatype Evidence = Evidence(
    candidates: seq<ProductCandidate>, runs: map<int, ScanRun>, baselines: seq<Baseline>,
    payloads: seq<RawPayload>, actions: seq<CorporateAction>)

  /** Everything a step writes. */
  datatype Db = Db(samples: seq<Sample>, measurements: Table)

  // ---------------------------------------------------------------- evidence

  ghost predicate DistinctBaselineIds(baselines: seq<Baseline>) {
    forall i, j :: 0 <= i < j < |baselines| ==> baselines[i].id != baselines[j].id
  }

  /** Primary keys are unique. */
  ghost predicate ValidEvidence(ev: Evidence) {
    && DistinctCandidateIds(ev.candidates) && DistinctBaselineIds(ev.baselines)
    && UniqueIds(ev.payloads) && UniqueActionIds(ev.actions)
  }

  /** A catalogue proof, as of first knowledge, that the close of that very day was known. */
  function SameDayKnown(ctx: Context, history: History, candidate: ProductCandidate): bool {
    var proof := LookupIn(history, candidate.ticker, ctx.cal.day(candidate.firstKnowledge), candidate.firstKnowledge);
    proof.Some? && proof.value.close.Some?
  }

  function FoundationFrom(ctx: Context, ev: Evidence, history: History, candidate: ProductCandidate): Foundation
    requires candidate.scanRunId in ev.runs
  {
    BuildFoundation(ctx.cal, candidate, ev.runs[candidate.scanRunId],
                    SelectFrozenBaseline(ev.baselines, candidate.id), SameDayKnown(ctx, history, candidate))
  }

  /** Each candidate's rebuilt foundation. */
  function RebuiltFrom(ctx: Context, ev: Evidence, history: History): Rebuilt {
    (c: ProductCandidate) => if c.scanRunId in ev.runs then Some(FoundationFrom(ctx, ev, history, c)) else None
  }

  function Foundations(ctx: Context, ev: Evidence): Rebuilt {
    RebuiltFrom(ctx, ev, BuildHistory(ctx.parse, ev.payloads))
  }

  /** Foundations meet the sample checks and sit on calendar plans. */
  ghost predicate SoundFoundation(c: Calendar, f: Foundation) {
    SampleChecks(f) && Planned(c, f)
  }

  ghost predicate SoundSamples(c: Calendar, samples: seq<Sample>) {
    forall i :: 0 <= i < |samples| ==> SoundFoundation(c, samples[i].values)
  }

  lemma FoundationFacts(ctx: Context, ev: Evidence, candidate: ProductCandidate)
    requires ValidCalendar(ctx.cal)
    ensures var r := Foundations(ctx, ev)(candidate);
      r.Some? ==> SoundFoundation(ctx.cal, r.value) && r.value.candidateId == candidate.id
  {
    if candidate.scanRunId in ev.runs {
      var known := SameDayKnown(ctx, BuildHistory(ctx.parse, ev.payloads), candidate);
      FoundationMeetsChecks(ctx.cal, candidate, ev.runs[candidate.scanRunId],
                            SelectFrozenBaseline(ev.baselines, candidate.id), known);
    }
  }

  lemma RebuiltFacts(ctx: Context, ev: Evidence)
    requires ValidCalendar(ctx.cal)
    ensures RebuiltForCandidate(Foundations(ctx, ev))
    ensures forall c :: Foundations(ctx, ev)(c).Some? ==> SoundFoundation(ctx.cal, Foundations(ctx, ev)(c).value)
  {
    forall c | Foundations(ctx, ev)(c).Some?
      ensures Foundations(ctx, ev)(c).value.candidateId == c.id && SoundFoundation(ctx.cal, Foundations(ctx, ev)(c).value)
    {
      FoundationFacts(ctx, ev, c);
    }
  }

  // ---------------------------------------------------------------- proposals

  function QuotesFrom(history: History, ticker: Ticker, t: Instant): Quotes {
    d => LookupIn(history, ticker, d, t)
  }

  lemma QuotesArePositive(ctx: Context, payloads: seq<RawPayload>, ticker: Ticker, t: Instant)
    requires UniqueIds(payloads)
    ensures PositiveQuotes(QuotesFrom(BuildHistory(ctx.parse, payloads), ticker, t))
  {
    var history := BuildHistory(ctx.parse, payloads);
    forall d | LookupIn(history, ticker, d, t).Some? && LookupIn(history, ticker, d, t).value.close.Some?
      ensures LookupIn(history, ticker, d, t).value.close.value > 0.0
    {
      LookupInBuilt(ctx.parse, payloads, ticker, d, t);
      LookupIsPositive(ctx.parse, payloads, ticker, d, t);
    }
  }

  /** The proposal for one foundation and horizon from the evidence at time `t`. */
  function ProposalFor(ctx: Context, ev: Evidence, f: Foundation, h: int, t: Instant, rep: bool): Proposal
    requires ValidCalendar(ctx.cal) && UniqueIds(ev.payloads) && Planned(ctx.cal, f) && Horizon(h)
  {
    QuotesArePositive(ctx, ev.payloads, f.ticker, t);
    PlannedProposal(ctx.cal, f, h, t, QuotesFrom(BuildHistory(ctx.parse, ev.payloads), f.ticker, t),
                    ActiveFor(ev.actions, f.ticker), rep)
  }

  lemma ProposalForChecks(ctx: Context, ev: Evidence, f: Foundation, h: int, t: Instant, rep: bool)
    requires ValidCalendar(ctx.cal) && UniqueIds(ev.payloads) && Planned(ctx.cal, f) && Horizon(h)
    ensures var m := ProposalFor(ctx, ev, f, h, t, rep).content;
      ContentChecks(m) && m.horizon == h && (m.primaryDescriptive ==> f.primaryEligible && rep)
  {
    QuotesArePositive(ctx, ev.payloads, f.ticker, t);
    PlannedFacts(ctx.cal, f, h);
    ProposalMeetsChecks(ctx.cal, f, h, t, QuotesFrom(BuildHistory(ctx.parse, ev.payloads), f.ticker, t),
                        ActiveFor(ev.actions, f.ticker), rep);
  }

  type Proposer = (Foundation, int, bool) --> Content

  function ProposerOf(ctx: Context, ev: Evidence, t: Instant): Proposer
    requires ValidCalendar(ctx.cal) && UniqueIds(ev.payloads)
  {
    (f: Foundation, h: int, rep: bool) requires Planned(ctx.cal, f) && Horizon(h) => ProposalFor(ctx, ev, f, h, t, rep).content
  }

  /** The proposer answers for every pair, on its own horizon, with a checked content. */
  ghost predicate Answers(propose: Proposer, f: Foundation) {
    forall h, rep :: Horizon(h) ==>
      propose.requires(f, h, rep) && propose(f, h, rep).horizon == h && ContentChecks(propose(f, h, rep))
      && (propose(f, h, rep).primaryDescriptive ==> f.primaryEligible && rep)
  }

  lemma ProposerAnswers(ctx: Context, ev: Evidence, t: Instant, f: Foundation)
    requires ValidCalendar(ctx.cal) && UniqueIds(ev.payloads) && Planned(ctx.cal, f)
    ensures Answers(ProposerOf(ctx, ev, t), f)
  {
    forall h, rep | Horizon(h)
      ensures var m := ProposalFor(ctx, ev, f, h, t, rep).content;
        ContentChecks(m) && m.horizon == h && (m.primaryDescriptive ==> f.primaryEligible && rep)
    {
      ProposalForChecks(ctx, ev, f, h, t, rep);
    }
  }

  function HorizonAt(k: nat): int { if k % 3 == 0 then 1 else if k % 3 == 1 then 3 else 5 }

  /** Proposal number `k`: pair k / 3 on its horizon k % 3. */
  function ItemAt(propose: Proposer, pairs: seq<Pair>, ids: set<nat>, k: nat): Item
    requires k < 3 * |pairs|
    requires forall i :: 0 <= i < |pairs| ==> Answers(propose, pairs[i].1)
  {
    var p := pairs[k / 3];
    assert Answers(propose, p.1) && Horizon(HorizonAt(k));
    Item(p.0, propose(p.1, HorizonAt(k), p.0 in ids))
  }

  /** The proposals of a pass, in the order of the nested loops. */
  function Items(propose: Proposer, pairs: seq<Pair>, ids: set<nat>): (items: seq<Item>)
    requires forall i :: 0 <= i < |pairs| ==> Answers(propose, pairs[i].1)
    ensures |items| == 3 * |pairs|
  {
    seq(3 * |pairs|, k requires 0 <= k < 3 * |pairs| => ItemAt(propose, pairs, ids, k))
  }

  lemma ItemsFacts(propose: Proposer, pairs: seq<Pair>, ids: set<nat>)
    requires forall i :: 0 <= i < |pairs| ==> Answers(propose, pairs[i].1)
    ensures ItemsChecked(Items(propose, pairs, ids))
    ensures DistinctRows(pairs) ==> DistinctKeys(Items(propose, pairs, ids))
  {
    var items := Items(propose, pairs, ids);
    forall k | 0 <= k < |items|
      ensures ContentChecks(items[k].content) && items[k].content.horizon == HorizonAt(k) && items[k].sample == pairs[k / 3].0
    {
      assert items[k] == ItemAt(propose, pairs, ids, k);
      assert Answers(propose, pairs[k / 3].1);
    }
  }

  // ---------------------------------------------------------------- the step

  /** The store after a committed step, or the error that rolled it back. */
  function MaterializeStep(ctx: Context, ev: Evidence, db: Db, t: Instant): Result<Db, StepError>
    requires ValidCalendar(ctx.cal) && ValidEvidence(ev) && UniqueSamples(db.samples)
  {
    match EnsureAll(Foundations(ctx, ev), db.samples, ev.candidates, t)
    case Err(e) => Err(e)
    case Ok(r) =>
      PairsAnswer(ctx, ev, db.samples, t);
      Ok(Db(r.0, AppendAll(db.measurements, Items(ProposerOf(ctx, ev, t), r.1, RepresentativeIds(r.1)), t)))
  }

  lemma PairsAnswer(ctx: Context, ev: Evidence, samples: seq<Sample>, t: Instant)
    requires ValidCalendar(ctx.cal) && ValidEvidence(ev) && UniqueSamples(samples)
    requires EnsureAll(Foundations(ctx, ev), samples, ev.candidates, t).Ok?
    ensures var r := EnsureAll(Foundations(ctx, ev), samples, ev.candidates, t).value;
      && PairsMatch(Foundations(ctx, ev), r.0, ev.candidates, r.1)
      && samples <= r.0 && UniqueSamples(r.0)
      && forall i :: 0 <= i < |r.1| ==> Answers(ProposerOf(ctx, ev, t), r.1[i].1) && SoundFoundation(ctx.cal, r.1[i].1)
  {
    RebuiltFacts(ctx, ev);
    EnsureAllFacts(Foundations(ctx, ev), samples, ev.candidates, t);
    var r := EnsureAll(Foundations(ctx, ev), samples, ev.candidates, t).value;
    forall i | 0 <= i < |r.1|
      ensures Answers(ProposerOf(ctx, ev, t), r.1[i].1) && SoundFoundation(ctx.cal, r.1[i].1)
    {
      assert PairMatches(Foundations(ctx, ev), r.0, ev.candidates[i], r.1[i]);
      ProposerAnswers(ctx, ev, t, r.1[i].1);
    }
  }

  datatype Summary = Summary(
    totalSamples: int, samplesInserted: int, samplesReused: int, measurementsInserted: int, measurementsReused: int)

  /** The counters of a committed step, as differences of table sizes. */
  function SummaryOf(candidates: int, before: Db, after: Db): Summary {
    var samples, measurements := |after.samples| - |before.samples|, |after.measurements| - |before.measurements|;
    Summary(candidates, samples, candidates - samples, measurements, 3 * candidates - measurements)
  }

  /** The materializer service over one session of the store. */
  class Stage9BOutcomeMaterializer {
    const ctx: Context
    var evidence: Evidence
    var samples: seq<Sample>
    var measurements: Table

    constructor (ctx: Context, evidence: Evidence, db: Db)
      ensures this.ctx == ctx && this.evidence == evidence
      ensures samples == db.samples && measurements == db.measurements
    {
      this.ctx := ctx;
      this.evidence := evidence;
      samples := db.samples;
      measurements := db.measurements;
    }

    /** One run: samples first, then representatives, then one proposal per sample and horizon.
        A raised error leaves the store as it was, because the caller's session rolls back. */
    method Materialize(t: Instant) returns (r: Result<Summary, StepError>)
      requires ValidCalendar(ctx.cal) && ValidEvidence(evidence) && UniqueSamples(samples)
      modifies this`samples, this`measurements
      ensures var step := MaterializeStep(ctx, evidence, Db(old(samples), old(measurements)), t);
        && (step.Err? ==> r == Err(step.error) && samples == old(samples) && measurements == old(measurements))
        && (step.Ok? ==>
              && Db(samples, measurements) == step.value
              && r == Ok(SummaryOf(|evidence.candidates|, Db(old(samples), old(measurements)), step.value)))
    {
      var tickers := set i | 0 <= i < |evidence.candidates| :: evidence.candidates[i].ticker;
      var catalog := new PreservedOhlcCatalog(ctx.parse, evidence.payloads);
      var actions := ActiveCorporateActions(evidence.actions, tickers);
      var phase := EnsureSamples(RebuiltFrom(ctx, evidence, catalog.history), samples, evidence.candidates, t);
      if phase.Err? {
        return Err(phase.error);
      }
      PairsAnswer(ctx, evidence, samples, t);
      var (table, pairs) := phase.value;
      TickersMatch(ctx, evidence, table, pairs);
      var representativeIds := PrimaryRepresentativeIds(pairs);
      var work := AppendProposals(catalog.history, actions, pairs, representativeIds, t, ProposerOf(ctx, evidence, t));
      r := Ok(SummaryOf(|evidence.candidates|, Db(samples, measurements), Db(table, work)));
      samples, measurements := table, work;
    }

    /** The sample loop; it stops at the first error. */
    static method EnsureSamples(rebuilt: Rebuilt, samples: seq<Sample>, candidates: seq<ProductCandidate>, t: Instant)
      returns (r: Result<(seq<Sample>, seq<Pair>), StepError>)
      ensures r == EnsureAll(rebuilt, samples, candidates, t)
      ensures r.Ok? ==> |r.value.1| == |candidates| && |samples| <= |r.value.0| <= |samples| + |candidates|
    {
      var work, pairs: seq<Pair> := samples, [];
      for i := 0 to |candidates|
        invariant EnsureAll(rebuilt, samples, candidates[..i], t) == Ok((work, pairs))
        invariant |pairs| == i && |samples| <= |work| <= |samples| + i
      {
        assert candidates[..i + 1][..i] == candidates[..i] && candidates[..i + 1][i] == candidates[i];
        var one := EnsureSample(rebuilt, work, candidates[i], t);
        if one.Err? {
          EnsureAllStops(rebuilt, samples, candidates, t, i + 1, one.error);
          return Err(one.error);
        }
        work := one.value.0;
        pairs := pairs + [one.value.1];
      }
      assert candidates[..|candidates|] == candidates;
      r := Ok((work, pairs));
    }

    /** Proposal `j` for pair `i`, from the built catalogue and the grouped actions. */
    method ProposeItem(
        history: History, actions: map<Ticker, seq<CorporateAction>>, pairs: seq<Pair>, ids: set<nat>, i: nat, j: nat,
        t: Instant, ghost propose: Proposer)
      returns (item: Item)
      requires ValidCalendar(ctx.cal) && ValidEvidence(evidence) && history == BuildHistory(ctx.parse, evidence.payloads)
      requires propose == ProposerOf(ctx, evidence, t) && AllAnswered(propose, pairs)
      requires AllProposable(ctx, evidence, actions, pairs) && i < |pairs| && j < 3
      ensures item == Items(propose, pairs, ids)[3 * i + j]
    {
      var (row, f) := pairs[i];
      assert Proposable(ctx, evidence, actions, f);
      ItemIs(propose, pairs, ids, i, j);
      QuotesArePositive(ctx, evidence.payloads, f.ticker, t);
      var proposal := ProposeMeasurement(
        ctx.cal, f, HorizonAt(j), t, QuotesFrom(history, f.ticker, t), ActionsAt(actions, f.ticker), row in ids);
      item := Item(row, proposal.content);
    }

    /** The measurement loop over samples and horizons. */
    method AppendProposals(
        history: History, actions: map<Ticker, seq<CorporateAction>>, pairs: seq<Pair>, ids: set<nat>, t: Instant,
        ghost propose: Proposer)
      returns (table: Table)
      requires ValidCalendar(ctx.cal) && ValidEvidence(evidence) && history == BuildHistory(ctx.parse, evidence.payloads)
      requires propose == ProposerOf(ctx, evidence, t) && AllAnswered(propose, pairs)
      requires AllProposable(ctx, evidence, actions, pairs)
      ensures table == AppendAll(measurements, Items(propose, pairs, ids), t)
      ensures |measurements| <= |table| <= |measurements| + 3 * |pairs|
    {
      ghost var items := Items(propose, pairs, ids);
      table := measurements;
      for i := 0 to |pairs|
        invariant table == AppendAll(measurements, items[..3 * i], t)
      {
        for j := 0 to 3
          invariant table == AppendAll(measurements, items[..3 * i + j], t)
        {
          var item := ProposeItem(history, actions, pairs, ids, i, j, t, propose);
          AppendAllStep(measurements, items, 3 * i + j, t);
          table := AppendIfChanged(table, item.sample, item.content, t);
        }
      }
      assert items[..|items|] == items;
      AppendAllGrows(measurements, items, t);
    }
  }

  lemma {:induction false} AppendAllGrows(ms: Table, items: seq<Item>, t: Instant)
    ensures |ms| <= |AppendAll(ms, items, t)| <= |ms| + |items|
  {
    if items != [] { AppendAllGrows(ms, items[..|items| - 1], t); }
  }

  lemma AppendAllStep(ms: Table, items: seq<Item>, k: nat, t: Instant)
    requires k < |items|
    ensures AppendAll(ms, items[..k + 1], t) == AppendIfChanged(AppendAll(ms, items[..k], t), items[k].sample, items[k].content, t)
  {
    assert items[..k + 1][..k] == items[..k] && items[..k + 1][k] == items[k];
  }

  ghost predicate AllAnswered(propose: Proposer, pairs: seq<Pair>) {
    forall i :: 0 <= i < |pairs| ==> Answers(propose, pairs[i].1)
  }

  /** Planned sessions, and the grouped actions are the active ones of its ticker. */
  ghost predicate Proposable(ctx: Context, ev: Evidence, actions: map<Ticker, seq<CorporateAction>>, f: Foundation)
    requires ValidCalendar(ctx.cal)
  {
    Planned(ctx.cal, f) && ActionsAt(actions, f.ticker) == ActiveFor(ev.actions, f.ticker)
  }

  ghost predicate AllProposable(ctx: Context, ev: Evidence, actions: map<Ticker, seq<CorporateAction>>, pairs: seq<Pair>)
    requires ValidCalendar(ctx.cal)
  {
    forall i :: 0 <= i < |pairs| ==> Proposable(ctx, ev, actions, pairs[i].1)
  }

  lemma ItemIs(propose: Proposer, pairs: seq<Pair>, ids: set<nat>, i: nat, j: nat)
    requires i < |pairs| && j < 3 && AllAnswered(propose, pairs)
    ensures Horizon(HorizonAt(j)) && propose.requires(pairs[i].1, HorizonAt(j), pairs[i].0 in ids)
    ensures Items(propose, pairs, ids)[3 * i + j] == Item(pairs[i].0, propose(pairs[i].1, HorizonAt(j), pairs[i].0 in ids))
  {
    assert (3 * i + j) / 3 == i && HorizonAt(3 * i + j) == HorizonAt(j);
    assert Answers(propose, pairs[i].1);
  }

  /** A pair's foundation carries its candidate's ticker. */
  lemma TickersMatch(ctx: Context, ev: Evidence, samples: seq<Sample>, pairs: seq<Pair>)
    requires PairsMatch(Foundations(ctx, ev), samples, ev.candidates, pairs)
    ensures forall i :: 0 <= i < |pairs| ==> pairs[i].1.ticker == ev.candidates[i].ticker
  {
    forall i | 0 <= i < |pairs|
      ensures pairs[i].1.ticker == ev.candidates[i].ticker
    {
      assert PairMatches(Foundations(ctx, ev), samples, ev.candidates[i], pairs[i]);
    }
  }

  /** An error on the way is the error of the whole pass. */
  lemma {:induction false} EnsureAllStops(
      rebuilt: Rebuilt, samples: seq<Sample>, candidates: seq<ProductCandidate>, t: Instant, n: nat, e: StepError)
    requires n <= |candidates| && EnsureAll(rebuilt, samples, candidates[..n], t) == Err(e)
    ensures EnsureAll(rebuilt, samples, candidates, t) == Err(e)
  {
    if n == |candidates| {
      assert candidates[..n] == candidates;
    } else {
      var front := candidates[..|candidates| - 1];
      assert front[..n] == candidates[..n];
      EnsureAllStops(rebuilt, samples, front, t, n, e);
    }
  }
}
