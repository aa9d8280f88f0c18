/** The measurement proposed for one (sample, horizon) from the evidence at one evaluation time. */
module OutcomeProposals {
  import opened Prelude
  import opened TradingCalendar
  import opened ForwardOutcome
  import opened ResearchSamples
  import opened CorporateActions
  import opened OhlcCatalog

  /** What one session contributed to a measurement's input evidence. */
  datatype BarEvidence =
    | NoBar(noBarReason: MissingReason)
    | UnusableBar(unusable: PreservedClose, reason: MissingReason)
    | UsedBar(used: PreservedClose)

  datatype CorporateActionState = NoKnownPriceScaleEvent | KnownPriceScaleEvent | NotApplicable

  /** Everything the semantic fingerprint covers; two contents are equal iff their fingerprints are. */
  datatype Content = Content(
    horizon: int, targetSession: Date, maturity: MaturityState,
    referenceClose: Option<real>, targetClose: Option<real>, metrics: Option<OutcomeMetrics>,
    primaryDescriptive: bool, actionState: CorporateActionState, actionIds: seq<int>,
    evidence: map<Date, BarEvidence>)

  datatype Proposal = Proposal(content: Content, missing: seq<(Date, MissingReason)>)

  type Quotes = Date -> Option<PreservedClose>

  predicate Horizon(h: int) { h == 1 || h == 3 || h == 5 }

  /** Catalogue entries carry only positive closes. */
  ghost predicate PositiveQuotes(quotes: Quotes) {
    forall d :: quotes(d).Some? && quotes(d).value.close.Some? ==> quotes(d).value.close.value > 0.0
  }

  predicate Relevant(f: Foundation, h: int, a: CorporateAction)
    requires Horizon(h)
  {
    f.sessions.referenceSession < a.effectiveSession <= TargetSession(f.sessions, h)
  }

  function RelevantActions(f: Foundation, h: int, actions: seq<CorporateAction>): seq<CorporateAction>
    requires Horizon(h)
  {
    Filter(actions, a => Relevant(f, h, a))
  }

  function ActionIds(actions: seq<CorporateAction>): seq<int> {
    seq(|actions|, i requires 0 <= i < |actions| => actions[i].id)
  }

  /** The reference session followed by the path from T+1 to the target. */
  function RequiredSessions(c: Calendar, f: Foundation, h: int): seq<Date>
    requires Horizon(h)
  {
    [f.sessions.referenceSession] + SessionsInRange(c, f.sessions.t1Session, TargetSession(f.sessions, h))
  }

  predicate HasClose(quotes: Quotes, d: Date) {
    quotes(d).Some? && quotes(d).value.close.Some?
  }

  function CloseOf(quotes: Quotes, d: Date): Option<real> {
    if quotes(d).Some? then quotes(d).value.close else None
  }

  function MissingReasonOf(quotes: Quotes, d: Date): MissingReason {
    if quotes(d).None? then NoPreservedRegularClose
    else if quotes(d).value.missingReason.Some? then quotes(d).value.missingReason.value
    else InvalidOrMissingRawClose
  }

  function EvidenceOf(quotes: Quotes, d: Date): BarEvidence {
    if quotes(d).None? then NoBar(NoPreservedRegularClose)
    else if quotes(d).value.close.None? then UnusableBar(quotes(d).value, MissingReasonOf(quotes, d))
    else UsedBar(quotes(d).value)
  }

  function MissingSessions(quotes: Quotes, days: seq<Date>): seq<(Date, MissingReason)> {
    if days == [] then []
    else
      var d := days[|days| - 1];
      MissingSessions(quotes, days[..|days| - 1]) + (if HasClose(quotes, d) then [] else [(d, MissingReasonOf(quotes, d))])
  }

  function EvidenceMap(quotes: Quotes, days: seq<Date>): map<Date, BarEvidence> {
    map d | d in days :: EvidenceOf(quotes, d)
  }

  const RAW_BASIS := PriceBasis(Some("RAW_REGULAR_CLOSE_RESEARCH_V1"), RawUnadjusted)

  function PriceEvidence(quotes: Quotes, d: Date): ClosePriceEvidence {
    ClosePriceEvidence(d, CloseOf(quotes, d), RAW_BASIS)
  }

  function PathEvidence(quotes: Quotes, days: seq<Date>): seq<ClosePriceEvidence> {
    seq(|days|, i requires 0 <= i < |days| => PriceEvidence(quotes, days[i]))
  }

  lemma {:induction false} MissingSessionsFacts(quotes: Quotes, days: seq<Date>)
    ensures MissingSessions(quotes, days) == [] <==> forall d :: d in days ==> HasClose(quotes, d)
  {
    if days != [] {
      MissingSessionsFacts(quotes, days[..|days| - 1]);
      assert days == days[..|days| - 1] + [days[|days| - 1]];
    }
  }

  /** A complete preserved path always yields metrics: the "unexpectedly produced no outcome" error
      cannot occur. */
  lemma CompletePathHasMetrics(quotes: Quotes, reference: Date, path: seq<Date>)
    requires PositiveQuotes(quotes) && path != []
    requires HasClose(quotes, reference) && forall d :: d in path ==> HasClose(quotes, d)
    ensures var r := CalculateClosePath(PriceEvidence(quotes, reference), PathEvidence(quotes, path));
      r.Ok? && r.value.Some?
  {
    var future := PathEvidence(quotes, path);
    forall i | 0 <= i < |future|
      ensures future[i].close.Some?
    {
      assert path[i] in path;
    }
    assert ConsistentBasis([PriceEvidence(quotes, reference)] + future);
  }

  predicate Complete(quotes: Quotes, days: seq<Date>) {
    forall d :: d in days ==> HasClose(quotes, d)
  }

  /** The close-path metrics of a complete path that starts at the reference session. */
  function PathMetrics(quotes: Quotes, days: seq<Date>): OutcomeMetrics
    requires PositiveQuotes(quotes) && |days| > 1 && Complete(quotes, days)
  {
    CompletePathHasMetrics(quotes, days[0], days[1..]);
    CalculateClosePath(PriceEvidence(quotes, days[0]), PathEvidence(quotes, days[1..])).value.value
  }

  lemma PathMetricsNest(quotes: Quotes, days: seq<Date>, n: nat)
    requires PositiveQuotes(quotes) && 1 < n <= |days| && Complete(quotes, days)
    ensures var short, long := PathMetrics(quotes, days[..n]), PathMetrics(quotes, days);
      && short.maxUpside <= long.maxUpside && long.maxDownside <= short.maxDownside
      && -1.0 < short.maxDownside <= short.closeReturn <= short.maxUpside
  {
    var reference := PriceEvidence(quotes, days[0]);
    var path := PathEvidence(quotes, days[1..]);
    CompletePathHasMetrics(quotes, days[0], days[1..]);
    CompletePathHasMetrics(quotes, days[0], days[..n][1..]);
    assert PathEvidence(quotes, days[..n][1..]) == path[..n - 1];
    MetricsAreOrdered(reference, path[..n - 1], PathMetrics(quotes, days[..n]));
    MetricsWiden(reference, path, n - 1, PathMetrics(quotes, days[..n]), PathMetrics(quotes, days));
  }

  /** The proposal; `quotes` is the catalogue as of the evaluation time and `actions` the
      ticker's active corporate actions. */
  function Propose(c: Calendar, f: Foundation, h: int, evaluatedAt: Instant, quotes: Quotes,
                   actions: seq<CorporateAction>, isRepresentative: bool): Proposal
    requires ValidCalendar(c) && Horizon(h) && PositiveQuotes(quotes)
    requires f.sessions.t1Session <= TargetSession(f.sessions, h) && IsSession(c, f.sessions.t1Session)
  {
    var target := TargetSession(f.sessions, h);
    var relevant := RelevantActions(f, h, actions);
    var ids := ActionIds(relevant);
    var known := if relevant != [] then KnownPriceScaleEvent else NoKnownPriceScaleEvent;
    if f.invalidReason.Some? then
      Proposal(Content(h, target, InvalidSample, None, None, None, false, NotApplicable, ids, map[]), [])
    else if MaturityStateAt(c, target, evaluatedAt, true, true, true) == NotYetMature then
      Proposal(Content(h, target, NotYetMature, None, None, None, false, known, ids, map[]), [])
    else
      var days := RequiredSessions(c, f, h);
      var missing := MissingSessions(quotes, days);
      var evidence := EvidenceMap(quotes, days);
      var referenceClose, targetClose := CloseOf(quotes, days[0]), CloseOf(quotes, days[|days| - 1]);
      if relevant != [] then
        Proposal(Content(h, target, CorporateActionContaminated, referenceClose, targetClose, None,
                         false, KnownPriceScaleEvent, ids, evidence), missing)
      else if missing != [] then
        Proposal(Content(h, target, MatureMissingData, referenceClose, targetClose, None,
                         false, NoKnownPriceScaleEvent, [], evidence), missing)
      else
        RangeHolds(c, f.sessions.t1Session, target, f.sessions.t1Session);
        MissingSessionsFacts(quotes, days);
        Proposal(Content(h, target, MatureAvailable, referenceClose, targetClose, Some(PathMetrics(quotes, days)),
                         f.primaryEligible && isRepresentative, NoKnownPriceScaleEvent, [], evidence), [])
  }

  lemma EvidenceStep(quotes: Quotes, days: seq<Date>, i: nat)
    requires i < |days|
    ensures EvidenceMap(quotes, days[..i + 1]) == EvidenceMap(quotes, days[..i])[days[i] := EvidenceOf(quotes, days[i])]
    ensures MissingSessions(quotes, days[..i + 1])
         == MissingSessions(quotes, days[..i]) + (if HasClose(quotes, days[i]) then [] else [(days[i], MissingReasonOf(quotes, days[i]))])
  {
    var front, longer := days[..i], days[..i + 1];
    assert longer == front + [days[i]] && longer[..i] == front;
  }

  /** The evidence loop over required sessions. */
  method CollectEvidence(quotes: Quotes, days: seq<Date>)
    returns (evidence: map<Date, BarEvidence>, missing: seq<(Date, MissingReason)>)
    ensures evidence == EvidenceMap(quotes, days) && missing == MissingSessions(quotes, days)
  {
    evidence, missing := map[], [];
    for i := 0 to |days|
      invariant evidence == EvidenceMap(quotes, days[..i])
      invariant missing == MissingSessions(quotes, days[..i])
    {
      var d := days[i];
      EvidenceStep(quotes, days, i);
      if quotes(d).None? {
        evidence := evidence[d := NoBar(NoPreservedRegularClose)];
        missing := missing + [(d, NoPreservedRegularClose)];
      } else if quotes(d).value.close.None? {
        var reason := MissingReasonOf(quotes, d);
        evidence := evidence[d := UnusableBar(quotes(d).value, reason)];
        missing := missing + [(d, reason)];
      } else {
        evidence := evidence[d := UsedBar(quotes(d).value)];
      }
    }
    assert days[..|days|] == days;
  }

  /** `_propose_measurement`: the branches in order, with the evidence loop in the middle. */
  method ProposeMeasurement(c: Calendar, f: Foundation, h: int, evaluatedAt: Instant, quotes: Quotes,
                            actions: seq<CorporateAction>, isRepresentative: bool) returns (p: Proposal)
    requires ValidCalendar(c) && Planned(c, f) && Horizon(h) && PositiveQuotes(quotes)
    ensures p == PlannedProposal(c, f, h, evaluatedAt, quotes, actions, isRepresentative)
  {
    PlannedFacts(c, f, h);
    var target := TargetSession(f.sessions, h);
    var relevant := RelevantActions(f, h, actions);
    var known := if relevant != [] then KnownPriceScaleEvent else NoKnownPriceScaleEvent;
    if f.invalidReason.Some? {
      return Proposal(Content(h, target, InvalidSample, None, None, None, false, NotApplicable, ActionIds(relevant), map[]), []);
    }
    if MaturityStateAt(c, target, evaluatedAt, true, true, true) == NotYetMature {
      return Proposal(Content(h, target, NotYetMature, None, None, None, false, known, ActionIds(relevant), map[]), []);
    }
    var days := RequiredSessions(c, f, h);
    var evidence, missing := CollectEvidence(quotes, days);
    var reference, last := CloseOf(quotes, days[0]), CloseOf(quotes, days[|days| - 1]);
    if relevant != [] {
      return Proposal(Content(h, target, CorporateActionContaminated, reference, last, None, false, known,
                              ActionIds(relevant), evidence), missing);
    }
    if missing != [] {
      return Proposal(Content(h, target, MatureMissingData, reference, last, None, false, known, [], evidence), missing);
    }
    MissingSessionsFacts(quotes, days);
    CompletePathHasMetrics(quotes, days[0], days[1..]);
    var outcome := CalculateClosePath(PriceEvidence(quotes, days[0]), PathEvidence(quotes, days[1..]));
    p := Proposal(Content(h, target, MatureAvailable, reference, last, outcome.value, f.primaryEligible && isRepresentative,
                          known, [], evidence), []);
  }

  // ---------------------------------------------------------------- the check constraints

  /** The table's check constraints on one measurement. */
  predicate ContentChecks(m: Content) {
    && Horizon(m.horizon)
    && (m.maturity == MatureAvailable ==> m.referenceClose.Some? && m.targetClose.Some? && m.metrics.Some?)
    && (m.maturity != MatureAvailable ==> m.metrics.None?)
    && (m.primaryDescriptive ==> m.maturity == MatureAvailable)
    && (m.maturity == CorporateActionContaminated ==> m.actionState == KnownPriceScaleEvent && !m.primaryDescriptive)
  }

  lemma NothingMissingAtEnds(quotes: Quotes, days: seq<Date>)
    requires days != []
    ensures MissingSessions(quotes, days) == [] ==> CloseOf(quotes, days[0]).Some? && CloseOf(quotes, days[|days| - 1]).Some?
  {
    MissingSessionsFacts(quotes, days);
    assert Complete(quotes, days) ==> HasClose(quotes, days[0]) && HasClose(quotes, days[|days| - 1]);
  }

  lemma ProposalMeetsChecks(c: Calendar, f: Foundation, h: int, t: Instant, quotes: Quotes,
                            actions: seq<CorporateAction>, rep: bool)
    requires ValidCalendar(c) && Horizon(h) && PositiveQuotes(quotes)
    requires f.sessions.t1Session <= TargetSession(f.sessions, h) && IsSession(c, f.sessions.t1Session)
    ensures var m := Propose(c, f, h, t, quotes, actions, rep).content;
      ContentChecks(m) && m.horizon == h && m.targetSession == TargetSession(f.sessions, h)
      && (m.primaryDescriptive ==> f.primaryEligible && rep)
  {
    if f.invalidReason.None? && MaturityStateAt(c, TargetSession(f.sessions, h), t, true, true, true) != NotYetMature {
      if RelevantActions(f, h, actions) == [] { NothingMissingAtEnds(quotes, RequiredSessions(c, f, h)); }
    }
  }

  // ---------------------------------------------------------------- nesting of horizons

  /** The foundation's sessions are a plan of the calendar. */
  predicate Planned(c: Calendar, f: Foundation) {
    || f.sessions == MapForwardSessions(c, f.firstKnowledge, true)
    || f.sessions == MapForwardSessions(c, f.firstKnowledge, false)
  }

  lemma PlannedFacts(c: Calendar, f: Foundation, h: int)
    requires ValidCalendar(c) && Planned(c, f) && Horizon(h)
    ensures f.sessions.t1Session <= TargetSession(f.sessions, h) && IsSession(c, f.sessions.t1Session)
    ensures IsSession(c, TargetSession(f.sessions, h))
    ensures f.sessions.referenceSession < f.sessions.t1Session
    ensures var path := SessionsInRange(c, f.sessions.t1Session, TargetSession(f.sessions, h));
      |path| == h && path[h - 1] == TargetSession(f.sessions, h)
      && path <= SessionsInRange(c, f.sessions.t1Session, f.sessions.t5Session)
  {
    var known := f.sessions == MapForwardSessions(c, f.firstKnowledge, true);
    PlanIsOrderedAndCausal(c, f.firstKnowledge, known);
    PathHasHorizonSessions(c, f.firstKnowledge, known, h);
  }

  lemma CloseOrder(c: Calendar, f: Foundation, h: int, h': int)
    requires ValidCalendar(c) && Planned(c, f) && Horizon(h) && Horizon(h') && h <= h'
    ensures SessionClose(c, TargetSession(f.sessions, h)) <= SessionClose(c, TargetSession(f.sessions, h'))
    ensures TargetSession(f.sessions, h) <= TargetSession(f.sessions, h')
  {
    var known := f.sessions == MapForwardSessions(c, f.firstKnowledge, true);
    PlanIsOrderedAndCausal(c, f.firstKnowledge, known);
  }

  /** The sessions a shorter horizon needs are a prefix of those a longer one needs. */
  lemma RequiredPrefix(c: Calendar, f: Foundation, h: int, h': int)
    requires ValidCalendar(c) && Planned(c, f) && Horizon(h) && Horizon(h') && h <= h'
    ensures |RequiredSessions(c, f, h)| == h + 1 && |RequiredSessions(c, f, h')| == h' + 1
    ensures RequiredSessions(c, f, h) == RequiredSessions(c, f, h')[..h + 1]
  {
    PlannedFacts(c, f, h);
    PlannedFacts(c, f, h');
    var whole := SessionsInRange(c, f.sessions.t1Session, f.sessions.t5Session);
    assert SessionsInRange(c, f.sessions.t1Session, TargetSession(f.sessions, h)) == whole[..h];
    assert SessionsInRange(c, f.sessions.t1Session, TargetSession(f.sessions, h')) == whole[..h'];
  }

  lemma {:induction false} RelevantGrows(f: Foundation, h: int, h': int, actions: seq<CorporateAction>)
    requires Horizon(h) && Horizon(h')
    requires TargetSession(f.sessions, h) <= TargetSession(f.sessions, h')
    ensures RelevantActions(f, h', actions) == [] ==> RelevantActions(f, h, actions) == []
  {
    if actions != [] { RelevantGrows(f, h, h', actions[..|actions| - 1]); }
  }

  /** When a horizon is available. */
  predicate Available(c: Calendar, f: Foundation, h: int, t: Instant, quotes: Quotes, actions: seq<CorporateAction>)
    requires ValidCalendar(c) && Horizon(h)
  {
    && f.invalidReason.None? && SessionClose(c, TargetSession(f.sessions, h)) <= t
    && RelevantActions(f, h, actions) == [] && Complete(quotes, RequiredSessions(c, f, h))
  }

  /** The proposal for a sample whose sessions are a plan of the calendar. */
  function PlannedProposal(c: Calendar, f: Foundation, h: int, t: Instant, quotes: Quotes,
                           actions: seq<CorporateAction>, rep: bool): Proposal
    requires ValidCalendar(c) && Planned(c, f) && Horizon(h) && PositiveQuotes(quotes)
  {
    PlannedFacts(c, f, h);
    Propose(c, f, h, t, quotes, actions, rep)
  }

  lemma AvailableProposal(c: Calendar, f: Foundation, h: int, t: Instant, quotes: Quotes,
                          actions: seq<CorporateAction>, rep: bool)
    requires ValidCalendar(c) && Planned(c, f) && Horizon(h) && PositiveQuotes(quotes)
    ensures var m, days := PlannedProposal(c, f, h, t, quotes, actions, rep).content, RequiredSessions(c, f, h);
      && (m.maturity == MatureAvailable <==> Available(c, f, h, t, quotes, actions))
      && (m.maturity == MatureAvailable ==> |days| > 1 && m.metrics == Some(PathMetrics(quotes, days))
                                            && m.referenceClose == CloseOf(quotes, days[0]))
  {
    PlannedFacts(c, f, h);
    MissingSessionsFacts(quotes, RequiredSessions(c, f, h));
  }

  /** Under one catalogue and one evaluation time, an available longer horizon makes every shorter
      one available, from the same reference close, with a narrower close range; and the metrics of
      every available horizon are ordered. */
  lemma HorizonsNest(c: Calendar, f: Foundation, h: int, h': int, t: Instant, quotes: Quotes,
                     actions: seq<CorporateAction>, rep: bool)
    requires ValidCalendar(c) && Planned(c, f) && Horizon(h) && Horizon(h') && h <= h' && PositiveQuotes(quotes)
    requires PlannedProposal(c, f, h', t, quotes, actions, rep).content.maturity == MatureAvailable
    ensures var short, long := PlannedProposal(c, f, h, t, quotes, actions, rep).content,
                               PlannedProposal(c, f, h', t, quotes, actions, rep).content;
      && short.maturity == MatureAvailable && short.referenceClose == long.referenceClose
      && short.metrics.Some? && long.metrics.Some?
      && short.metrics.value.maxUpside <= long.metrics.value.maxUpside
      && long.metrics.value.maxDownside <= short.metrics.value.maxDownside
      && -1.0 < short.metrics.value.maxDownside <= short.metrics.value.closeReturn <= short.metrics.value.maxUpside
  {
    CloseOrder(c, f, h, h');
    RequiredPrefix(c, f, h, h');
    RelevantGrows(f, h, h', actions);
    AvailableProposal(c, f, h', t, quotes, actions, rep);
    AvailableProposal(c, f, h, t, quotes, actions, rep);
    var days' := RequiredSessions(c, f, h');
    assert Complete(quotes, days'[..h + 1]);
    PathMetricsNest(quotes, days', h + 1);
  }

  /** Contamination spreads to every longer matured horizon. */
  lemma ContaminationSpreads(c: Calendar, f: Foundation, h: int, h': int, t: Instant, quotes: Quotes,
                             actions: seq<CorporateAction>, rep: bool)
    requires ValidCalendar(c) && Planned(c, f) && Horizon(h) && Horizon(h') && h <= h' && PositiveQuotes(quotes)
    requires PlannedProposal(c, f, h, t, quotes, actions, rep).content.maturity == CorporateActionContaminated
    ensures var m := PlannedProposal(c, f, h', t, quotes, actions, rep).content.maturity;
      m == CorporateActionContaminated || m == NotYetMature
  {
    CloseOrder(c, f, h, h');
    RelevantGrows(f, h, h', actions);
  }
}
