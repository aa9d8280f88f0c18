/** Baseline creation over whole histories: frozen, unique, and indifferent to when it runs. */
module BaselineHistory {
  import opened Prelude
  import opened TradingCalendar
  import opened OhlcCatalog
  import opened FrozenBaseline
  import DealerArchive

  /** An immutable candidate with its triggers' ids and the expirations they name. */
  datatype Candidate = Candidate(id: int, ticker: Ticker, firstKnowledge: Instant, triggers: set<int>, expirations: set<Date>)

  datatype Kind = FirstKnowledgeBaseline | Refresh

  datatype ContextRow = ContextRow(
    candidateId: int, kind: Kind, config: int, firstKnowledge: Instant, evaluatedAt: Instant, triggers: set<int>, context: Context)

  datatype Error = TriggerSetConflict | PredatesFirstKnowledge

  /** What an evaluation depends on besides the store. */
  datatype Rules = Rules(config: int, isObject: RawPayload -> bool, clock: Clock)

  datatype State = State(evidence: Evidence, contexts: seq<ContextRow>)

  predicate IsBaseline(row: ContextRow, candidateId: int, config: int) {
    row.candidateId == candidateId && row.kind == FirstKnowledgeBaseline && row.config == config
  }

  function FindBaseline(contexts: seq<ContextRow>, candidateId: int, config: int): Option<ContextRow> {
    if contexts == [] then None
    else
      var earlier := FindBaseline(contexts[..|contexts| - 1], candidateId, config);
      if earlier.Some? then earlier
      else if IsBaseline(contexts[|contexts| - 1], candidateId, config) then Some(contexts[|contexts| - 1])
      else None
  }

  function FrozenContext(e: Evidence, rules: Rules, c: Candidate): Context {
    ContextAt(e, rules.isObject, rules.clock, c.ticker, c.expirations, c.firstKnowledge)
  }

  function NewBaseline(s: State, rules: Rules, c: Candidate, at: Instant): ContextRow {
    ContextRow(c.id, FirstKnowledgeBaseline, rules.config, c.firstKnowledge, at, c.triggers, FrozenContext(s.evidence, rules, c))
  }

  datatype Outcome = Outcome(state: State, result: Result<ContextRow, Error>)

  /** `create_baseline`. */
  function Create(s: State, rules: Rules, c: Candidate, at: Instant): Outcome {
    var existing := FindBaseline(s.contexts, c.id, rules.config);
    if existing.Some? then
      Outcome(s, if existing.value.triggers != c.triggers then Err(TriggerSetConflict) else Ok(existing.value))
    else if at < c.firstKnowledge then Outcome(s, Err(PredatesFirstKnowledge))
    else
      var row := NewBaseline(s, rules, c, at);
      Outcome(s.(contexts := s.contexts + [row]), Ok(row))
  }

  class Stage6BalancedContextService {
    var evidence: Evidence
    var contexts: seq<ContextRow>
    const rules: Rules

    constructor (evidence: Evidence, contexts: seq<ContextRow>, rules: Rules)
      ensures Contents() == State(evidence, contexts) && this.rules == rules
    {
      this.evidence := evidence;
      this.contexts := contexts;
      this.rules := rules;
    }

    function Contents(): State
      reads this
    {
      State(evidence, contexts)
    }

    method CreateBaseline(c: Candidate, at: Instant) returns (result: Result<ContextRow, Error>)
      modifies this`contexts
      ensures Outcome(Contents(), result) == Create(old(Contents()), rules, c, at)
    {
      var existing := FindBaseline(contexts, c.id, rules.config);
      if existing.Some? {
        if existing.value.triggers != c.triggers {
          return Err(TriggerSetConflict);
        }
        return Ok(existing.value);
      }
      if at < c.firstKnowledge {
        return Err(PredatesFirstKnowledge);
      }
      var bundle := ArchivedSourceBundle(evidence.payloads, rules.isObject, c.ticker, c.firstKnowledge);
      var context := Context(
        bundle,
        ChainsOf(evidence.contracts, c.ticker, c.expirations, c.firstKnowledge),
        DealerArchive.BestAtOrBefore(evidence.surfaces, c.ticker, c.firstKnowledge),
        PriceOf(bundle, rules.clock, c.firstKnowledge));
      var row := ContextRow(c.id, FirstKnowledgeBaseline, rules.config, c.firstKnowledge, at, c.triggers, context);
      contexts := contexts + [row];
      result := Ok(row);
    }
  }

  // ---------------------------------------------------------------- histories

  datatype Event =
    | Collect(evidence: Evidence)
    | CreateFor(rules: Rules, candidate: Candidate, at: Instant)
    | RefreshFor(row: ContextRow)

  function Joined(a: Evidence, b: Evidence): Evidence {
    Evidence(a.payloads + b.payloads, a.contracts + b.contracts, a.surfaces + b.surfaces)
  }

  function After(s: State, e: Event): State {
    match e
    case Collect(more) => s.(evidence := Joined(s.evidence, more))
    case CreateFor(rules, candidate, at) => Create(s, rules, candidate, at).state
    case RefreshFor(row) => s.(contexts := s.contexts + [row])
  }

  function AfterAll(s: State, events: seq<Event>): State {
    if events == [] then s else After(AfterAll(s, events[..|events| - 1]), events[|events| - 1])
  }

  /** Everything in `e` was recorded strictly after `t`. */
  ghost predicate RecordedAfter(e: Evidence, t: Instant) {
    && (forall i :: 0 <= i < |e.payloads| ==> e.payloads[i].receivedAt > t)
    && (forall i :: 0 <= i < |e.contracts| ==> e.contracts[i].receivedAt > t)
    && (forall i :: 0 <= i < |e.surfaces| ==> e.surfaces[i].row.capturedAt > t)
  }

  /** From now on evidence is recorded after first knowledge, ids identify candidates, one rule set
      a configuration, and refreshes are refreshes. */
  ghost predicate Proper(e: Event, rules: Rules, c: Candidate) {
    match e
    case Collect(more) => RecordedAfter(more, c.firstKnowledge)
    case CreateFor(r, candidate, _) => (candidate.id == c.id ==> candidate == c) && (r.config == rules.config ==> r == rules)
    case RefreshFor(row) => row.kind == Refresh
  }

  ghost predicate AllProper(events: seq<Event>, rules: Rules, c: Candidate) {
    forall i :: 0 <= i < |events| ==> Proper(events[i], rules, c)
  }

  ghost predicate BaselinesUnique(contexts: seq<ContextRow>) {
    forall i, j :: 0 <= i < j < |contexts| && contexts[i].kind == FirstKnowledgeBaseline ==>
      !IsBaseline(contexts[j], contexts[i].candidateId, contexts[i].config)
  }

  lemma {:induction false} FindMeaning(contexts: seq<ContextRow>, candidateId: int, config: int)
    ensures var f := FindBaseline(contexts, candidateId, config);
      if f.Some? then f.value in contexts && IsBaseline(f.value, candidateId, config)
      else forall i :: 0 <= i < |contexts| ==> !IsBaseline(contexts[i], candidateId, config)
  {
    if contexts != [] { FindMeaning(contexts[..|contexts| - 1], candidateId, config); }
  }

  lemma FindAppended(contexts: seq<ContextRow>, row: ContextRow, candidateId: int, config: int)
    ensures FindBaseline(contexts + [row], candidateId, config)
         == if FindBaseline(contexts, candidateId, config).Some? then FindBaseline(contexts, candidateId, config)
            else if IsBaseline(row, candidateId, config) then Some(row) else None
  {
    assert (contexts + [row])[..|contexts|] == contexts;
  }

  lemma CollectKeepsKnown(e: Evidence, more: Evidence, t: Instant)
    requires RecordedAfter(more, t)
    ensures KnownPart(Joined(e, more), t) == KnownPart(e, t)
  {
    var p := (raw: RawPayload) => raw.receivedAt <= t;
    var q := (row: FrozenBaseline.ContractRow) => row.receivedAt <= t;
    var r := (x: DealerArchive.Archived) => x.row.capturedAt <= t;
    FilterConcat(e.payloads, more.payloads, p);
    FilterConcat(e.contracts, more.contracts, q);
    FilterConcat(e.surfaces, more.surfaces, r);
    FilterEmpty(more.payloads, p);
    FilterEmpty(more.contracts, q);
    FilterEmpty(more.surfaces, r);
    assert Filter(e.payloads, p) + [] == Filter(e.payloads, p);
    assert Filter(e.contracts, q) + [] == Filter(e.contracts, q);
    assert Filter(e.surfaces, r) + [] == Filter(e.surfaces, r);
  }

  /** Candidate `c`'s frozen context is `context`, in the store and in its baseline if there is one. */
  ghost predicate FrozenAs(s: State, rules: Rules, c: Candidate, context: Context) {
    && BaselinesUnique(s.contexts)
    && FrozenContext(s.evidence, rules, c) == context
    && var f := FindBaseline(s.contexts, c.id, rules.config);
       f.Some? ==> f.value.context == context && f.value.triggers == c.triggers && f.value.firstKnowledge == c.firstKnowledge
  }

  lemma CreateKeepsUnique(s: State, rules: Rules, c: Candidate, at: Instant)
    requires BaselinesUnique(s.contexts)
    ensures BaselinesUnique(Create(s, rules, c, at).state.contexts)
  {
    FindMeaning(s.contexts, c.id, rules.config);
  }

  lemma EventKeepsFrozen(s: State, e: Event, rules: Rules, c: Candidate, context: Context)
    requires FrozenAs(s, rules, c, context) && Proper(e, rules, c)
    ensures FrozenAs(After(s, e), rules, c, context)
    ensures var f := FindBaseline(s.contexts, c.id, rules.config);
      f.Some? ==> FindBaseline(After(s, e).contexts, c.id, rules.config) == f
  {
    match e
    case Collect(more) =>
      CollectKeepsKnown(s.evidence, more, c.firstKnowledge);
      NoLookahead(Joined(s.evidence, more), s.evidence, rules.isObject, rules.clock, c.ticker, c.expirations, c.firstKnowledge);
    case CreateFor(r, candidate, at) =>
      CreateKeepsUnique(s, r, candidate, at);
      FindAppended(s.contexts, NewBaseline(s, r, candidate, at), c.id, rules.config);
    case RefreshFor(row) =>
      FindAppended(s.contexts, row, c.id, rules.config);
  }

  lemma {:induction false} EventsKeepFrozen(s: State, events: seq<Event>, rules: Rules, c: Candidate, context: Context)
    requires FrozenAs(s, rules, c, context) && AllProper(events, rules, c)
    ensures FrozenAs(AfterAll(s, events), rules, c, context)
    ensures var f := FindBaseline(s.contexts, c.id, rules.config);
      f.Some? ==> FindBaseline(AfterAll(s, events).contexts, c.id, rules.config) == f
  {
    if events != [] {
      EventsKeepFrozen(s, events[..|events| - 1], rules, c, context);
      EventKeepsFrozen(AfterAll(s, events[..|events| - 1]), events[|events| - 1], rules, c, context);
    }
  }

  /** Whenever the baseline is created after first knowledge, it holds the context of first
      knowledge: evidence collected meanwhile, other candidates and refreshes cannot change it. */
  lemma BaselineIsFrozen(s: State, events: seq<Event>, rules: Rules, c: Candidate, at: Instant)
    requires BaselinesUnique(s.contexts) && FindBaseline(s.contexts, c.id, rules.config).None?
    requires AllProper(events, rules, c) && at >= c.firstKnowledge
    ensures var r := Create(AfterAll(s, events), rules, c, at).result;
      r.Ok? && r.value.context == FrozenContext(s.evidence, rules, c) && r.value.triggers == c.triggers
  {
    EventsKeepFrozen(s, events, rules, c, FrozenContext(s.evidence, rules, c));
  }

  /** At most one baseline a candidate and configuration: once created, every later request returns
      that very row and stores nothing. */
  lemma BaselineIsUnique(s: State, rules: Rules, c: Candidate, at: Instant, events: seq<Event>, at': Instant)
    requires BaselinesUnique(s.contexts) && FindBaseline(s.contexts, c.id, rules.config).None? && at >= c.firstKnowledge
    requires AllProper(events, rules, c)
    ensures var first := Create(s, rules, c, at);
      var later := AfterAll(first.state, events);
      && BaselinesUnique(later.contexts)
      && Create(later, rules, c, at') == Outcome(later, first.result)
  {
    var context := FrozenContext(s.evidence, rules, c);
    EventKeepsFrozen(s, CreateFor(rules, c, at), rules, c, context);
    var first := Create(s, rules, c, at);
    FindAppended(s.contexts, first.result.value, c.id, rules.config);
    EventsKeepFrozen(first.state, events, rules, c, context);
  }
}
