/** Which persistence observations may trigger a candidate on an analysis date. */
module CurrentPersistence {
  import opened Prelude
  import opened TradingCalendar

  type Symbol = int

  /** `observedAt` is None when it is not a zoned instant, `windowLast` when it does not parse. */
  datatype Observation = Observation(
    id: int, ticker: Ticker, symbol: Option<Symbol>, observedAt: Option<Instant>,
    windowLast: Option<Date>, score: Option<real>)

  datatype FreshnessState =
    | FutureEvidenceRejected
    | CalibrationRequired
    | WindowLastUnavailable
    | Current
    | Stale
    | AnalysisDateUnavailable
    | InadmissibleObservationTime

  datatype Assessment = Assessment(eligible: bool, state: FreshnessState, ageDays: Option<int>)

  /** The configured limit and the calendar: `midnight(d)` is the instant New York date `d` begins. */
  datatype Policy = Policy(maxAgeDays: Option<int>, midnight: Date -> Instant)

  function Assess(policy: Policy, windowLast: Option<Date>, analysis: Date): Assessment {
    if windowLast.Some? && windowLast.value > analysis then Assessment(false, FutureEvidenceRejected, None)
    else if policy.maxAgeDays.None? then Assessment(false, CalibrationRequired, None)
    else if windowLast.None? then Assessment(false, WindowLastUnavailable, None)
    else
      var age := analysis - windowLast.value;
      Assessment(age <= policy.maxAgeDays.value, if age <= policy.maxAgeDays.value then Current else Stale, Some(age))
  }

  predicate TimeAdmissible(policy: Policy, row: Observation, analysis: Date) {
    row.observedAt.Some? && row.observedAt.value < policy.midnight(analysis + 1)
  }

  predicate Admissible(policy: Policy, row: Observation, analysis: Date) {
    TimeAdmissible(policy, row, analysis) && Assess(policy, row.windowLast, analysis).eligible
  }

  /** An assessment is eligible exactly when a limit is set and the window ends within it, not in
      the future. */
  lemma EligibleIffCurrent(policy: Policy, windowLast: Option<Date>, analysis: Date)
    ensures var a := Assess(policy, windowLast, analysis);
      && (a.eligible <==> a.state == Current)
      && (a.eligible <==> policy.maxAgeDays.Some? && windowLast.Some?
                          && analysis - policy.maxAgeDays.value <= windowLast.value <= analysis)
      && (a.ageDays.Some? ==> a.ageDays.value >= 0)
  {
  }

  // ---------------------------------------------------------------- the selection loop

  predicate SameContract(a: Observation, b: Observation) { a.symbol == b.symbol }

  ghost predicate HasContract(s: seq<Observation>, row: Observation) {
    exists r :: r in s && SameContract(r, row)
  }

  predicate SeenIn(s: seq<Observation>, row: Observation) {
    s != [] && (SameContract(s[|s| - 1], row) || SeenIn(s[..|s| - 1], row))
  }

  lemma {:induction false} SeenInMeaning(s: seq<Observation>, row: Observation)
    ensures SeenIn(s, row) <==> HasContract(s, row)
  {
    if s != [] {
      SeenInMeaning(s[..|s| - 1], row);
      assert s == s[..|s| - 1] + [s[|s| - 1]];
    }
  }

  /** The first row of every contract, in order. */
  function FirstPerContract(s: seq<Observation>): seq<Observation> {
    if s == [] then []
    else
      var kept := FirstPerContract(s[..|s| - 1]);
      if SeenIn(kept, s[|s| - 1]) then kept else kept + [s[|s| - 1]]
  }

  predicate Counts(policy: Policy, analysis: Date, row: Observation) {
    Admissible(policy, row, analysis) && row.symbol.Some?
  }

  function Selected(policy: Policy, analysis: Date, observations: seq<Observation>): seq<Observation> {
    FirstPerContract(Filter(observations, (row: Observation) => Counts(policy, analysis, row)))
  }

  ghost predicate HasSymbol(s: seq<Observation>, symbol: Symbol) {
    exists r :: r in s && r.symbol == Some(symbol)
  }

  lemma SymbolOfContract(s: seq<Observation>, row: Observation)
    requires row.symbol.Some?
    ensures HasSymbol(s, row.symbol.value) <==> HasContract(s, row)
  {
    if HasSymbol(s, row.symbol.value) {
      var r :| r in s && r.symbol == Some(row.symbol.value);
      assert SameContract(r, row);
    }
    if HasContract(s, row) {
      var r :| r in s && SameContract(r, row);
      assert r.symbol == Some(row.symbol.value);
    }
  }

  lemma SymbolStep(s: seq<Observation>, row: Observation)
    requires row.symbol.Some?
    ensures forall x :: HasSymbol(s + [row], x) <==> HasSymbol(s, x) || x == row.symbol.value
  {
    assert row in s + [row];
    forall x | HasSymbol(s, x)
      ensures HasSymbol(s + [row], x)
    {
      var r :| r in s && r.symbol == Some(x);
      assert r in s + [row];
    }
  }

  method SelectCurrent(policy: Policy, analysis: Date, observations: seq<Observation>)
    returns (selected: seq<Observation>)
    ensures selected == Selected(policy, analysis, observations)
  {
    selected := [];
    var seen: set<Symbol> := {};
    for i := 0 to |observations|
      invariant selected == Selected(policy, analysis, observations[..i])
      invariant forall s :: s in seen <==> HasSymbol(selected, s)
    {
      var row := observations[i];
      assert observations[..i + 1][..i] == observations[..i];
      if Counts(policy, analysis, row) {
        ghost var counted := Filter(observations[..i], (row: Observation) => Counts(policy, analysis, row));
        assert (counted + [row])[..|counted|] == counted;
        SeenInMeaning(selected, row);
        SymbolOfContract(selected, row);
        SymbolStep(selected, row);
        if row.symbol.value !in seen {
          seen := seen + {row.symbol.value};
          selected := selected + [row];
        }
      }
    }
    assert observations[..|observations|] == observations;
  }

  // ---------------------------------------------------------------- what is selected

  /** Row `i` is the first of its contract. */
  ghost predicate IsFirst(s: seq<Observation>, i: int) {
    0 <= i < |s| && forall j :: 0 <= j < i ==> !SameContract(s[j], s[i])
  }

  ghost predicate HoldsFirst(s: seq<Observation>, row: Observation) {
    exists i :: IsFirst(s, i) && s[i] == row
  }

  lemma FirstStep(front: seq<Observation>, last: Observation, row: Observation)
    ensures HoldsFirst(front + [last], row) <==> HoldsFirst(front, row) || (row == last && !HasContract(front, last))
  {
    var s, n := front + [last], |front|;
    if HoldsFirst(front, row) {
      var i :| IsFirst(front, i) && front[i] == row;
      assert IsFirst(s, i) && s[i] == row;
    }
    if row == last && !HasContract(front, last) {
      assert forall j :: 0 <= j < n ==> s[j] in front && !SameContract(s[j], s[n]);
      assert IsFirst(s, n) && s[n] == row;
    }
    if HoldsFirst(s, row) {
      var i :| IsFirst(s, i) && s[i] == row;
      if i < n {
        assert forall j :: 0 <= j <= i ==> front[j] == s[j];
        assert IsFirst(front, i) && front[i] == row;
      } else {
        forall r | r in front
          ensures !SameContract(r, last)
        {
          var j :| 0 <= j < n && front[j] == r;
          assert s[j] == r;
        }
      }
    }
  }

  lemma {:induction false} FirstPerContractMeaning(s: seq<Observation>)
    ensures forall row :: row in FirstPerContract(s) <==> HoldsFirst(s, row)
    ensures forall row :: HasContract(s, row) <==> HasContract(FirstPerContract(s), row)
  {
    if s != [] {
      var front, last := s[..|s| - 1], s[|s| - 1];
      var kept := FirstPerContract(front);
      FirstPerContractMeaning(front);
      SeenInMeaning(kept, last);
      assert s == front + [last];
      forall row
        ensures row in FirstPerContract(s) <==> HoldsFirst(s, row)
        ensures HasContract(s, row) <==> HasContract(FirstPerContract(s), row)
      {
        FirstStep(front, last, row);
        ContractStep(front, last, row);
        ContractStep(kept, last, row);
      }
    }
  }

  lemma ContractStep(front: seq<Observation>, last: Observation, row: Observation)
    ensures HasContract(front + [last], row) <==> HasContract(front, row) || SameContract(last, row)
  {
    assert last in front + [last];
    if HasContract(front, row) {
      var r :| r in front && SameContract(r, row);
      assert r in front + [last];
    }
  }

  predicate NewerFirst(a: Observation, b: Observation) {
    b.observedAt.None? || (a.observedAt.Some? && a.observedAt.value >= b.observedAt.value)
  }

  ghost predicate Covers(selected: seq<Observation>, row: Observation) {
    exists r :: r in selected && SameContract(r, row) && NewerFirst(r, row)
  }

  lemma FirstIsNewest(s: seq<Observation>, row: Observation)
    requires SortedBy(NewerFirst, s) && row in s
    ensures Covers(FirstPerContract(s), row)
  {
    FirstPerContractMeaning(s);
    assert HasContract(s, row);
    var r :| r in FirstPerContract(s) && SameContract(r, row);
    var i :| IsFirst(s, i) && s[i] == r;
    var j :| 0 <= j < |s| && s[j] == row;
    assert SameContract(s[j], s[i]);
    assert i <= j;
    if i < j { assert NewerFirst(s[i], s[j]); }
  }

  /** For newest-first input every admissible observation's contract is represented by an
      admissible observation at least as new: no future, stale or uncalibrated row hides it. */
  lemma SelectsNewestAdmissible(policy: Policy, analysis: Date, observations: seq<Observation>, row: Observation)
    requires SortedBy(NewerFirst, observations) && row in observations && Counts(policy, analysis, row)
    ensures Covers(Selected(policy, analysis, observations), row)
  {
    var keep := (row: Observation) => Counts(policy, analysis, row);
    FilterSorted(NewerFirst, observations, keep);
    FilterMembers(observations, keep);
    FirstIsNewest(Filter(observations, keep), row);
  }

  /** Selected rows are given, admissible, and pairwise of different contracts. */
  lemma SelectedAreAdmissible(policy: Policy, analysis: Date, observations: seq<Observation>)
    ensures forall r :: r in Selected(policy, analysis, observations) ==> r in observations && Counts(policy, analysis, r)
    ensures OnePerContract(Selected(policy, analysis, observations))
  {
    var counted := Filter(observations, (row: Observation) => Counts(policy, analysis, row));
    FilterMembers(observations, (row: Observation) => Counts(policy, analysis, row));
    FirstPerContractMeaning(counted);
    FirstPerContractDistinct(counted);
  }

  ghost predicate OnePerContract(s: seq<Observation>) {
    forall i, j :: 0 <= i < j < |s| ==> !SameContract(s[i], s[j])
  }

  lemma {:induction false} FirstPerContractDistinct(s: seq<Observation>)
    ensures OnePerContract(FirstPerContract(s))
  {
    if s != [] {
      FirstPerContractDistinct(s[..|s| - 1]);
      SeenInMeaning(FirstPerContract(s[..|s| - 1]), s[|s| - 1]);
    }
  }

  /** Inserting inadmissible rows anywhere never changes the answer. */
  lemma InadmissibleRowsIgnored(
      policy: Policy, analysis: Date, before: seq<Observation>, extra: seq<Observation>, after: seq<Observation>)
    requires forall r :: r in extra ==> !Admissible(policy, r, analysis)
    ensures Selected(policy, analysis, before + extra + after) == Selected(policy, analysis, before + after)
  {
    var keep := (row: Observation) => Counts(policy, analysis, row);
    FilterConcat(before + extra, after, keep);
    FilterConcat(before, extra, keep);
    FilterConcat(before, after, keep);
    FilterEmpty(extra, keep);
    assert Filter(before, keep) + [] == Filter(before, keep);
  }

  // ---------------------------------------------------------------- the public judgement

  /** `persistent_public`'s eligibility and state. */
  function PublicAssessment(policy: Policy, row: Observation, analysis: Option<Date>): Assessment {
    if analysis.None? then
      Assessment(false, if policy.maxAgeDays.None? then CalibrationRequired else AnalysisDateUnavailable, None)
    else if policy.maxAgeDays.Some? && !TimeAdmissible(policy, row, analysis.value) then
      Assessment(false, InadmissibleObservationTime, None)
    else Assess(policy, row.windowLast, analysis.value)
  }

  /** The independently written public judgement calls a row eligible exactly when the selection
      admits it, so every selected row is judged eligible again. */
  lemma PublicAgreesWithSelection(policy: Policy, row: Observation, analysis: Date)
    ensures PublicAssessment(policy, row, Some(analysis)).eligible <==> Admissible(policy, row, analysis)
  {
    EligibleIffCurrent(policy, row.windowLast, analysis);
  }

  lemma SelectedAreEligibleAgain(policy: Policy, analysis: Date, observations: seq<Observation>, row: Observation)
    requires row in Selected(policy, analysis, observations)
    ensures PublicAssessment(policy, row, Some(analysis)).eligible
    ensures PublicAssessment(policy, row, Some(analysis)).state == Current
  {
    SelectedAreAdmissible(policy, analysis, observations);
    PublicAgreesWithSelection(policy, row, analysis);
    EligibleIffCurrent(policy, row.windowLast, analysis);
  }

  // ---------------------------------------------------------------- evidence for one scan

  const PERSISTENT_ELIGIBILITY := 65.0

  predicate KnownBy(row: Observation, cutoff: Option<Instant>) {
    cutoff.None? || (row.observedAt.Some? && row.observedAt.value <= cutoff.value)
  }

  /** The stored rows the projection queries: strong, in the universe, before the analysis cutoff
      and known by the knowledge cutoff. */
  predicate Queried(policy: Policy, universe: set<Ticker>, analysis: Date, cutoff: Option<Instant>, row: Observation) {
    && row.score.Some? && row.score.value >= PERSISTENT_ELIGIBILITY
    && row.ticker in universe
    && TimeAdmissible(policy, row, analysis)
    && KnownBy(row, cutoff)
  }

  function CurrentTriggers(
      policy: Policy, universe: set<Ticker>, store: seq<Observation>, analysis: Option<Date>, cutoff: Option<Instant>)
    : seq<Observation>
  {
    if analysis.None? then []
    else
      Selected(policy, analysis.value, StableSort(NewerFirst,
        Filter(store, (row: Observation) => Queried(policy, universe, analysis.value, cutoff, row))))
  }

  /** Triggers first; analytics rows known by the cutoff fill in the contracts without one. */
  function WithAnalytics(triggers: seq<Observation>, analytics: seq<Observation>, cutoff: Option<Instant>): seq<Observation> {
    if analytics == [] then triggers
    else
      var rows, row := WithAnalytics(triggers, analytics[..|analytics| - 1], cutoff), analytics[|analytics| - 1];
      if KnownBy(row, cutoff) && !SeenIn(rows, row) then rows + [row] else rows
  }

  method EvidenceForProjection(
      policy: Policy, universe: set<Ticker>, store: seq<Observation>, analytics: seq<Observation>,
      analysis: Option<Date>, cutoff: Option<Instant>)
    returns (evidence: seq<Observation>)
    ensures evidence == WithAnalytics(CurrentTriggers(policy, universe, store, analysis, cutoff), analytics, cutoff)
  {
    var triggers: seq<Observation> := [];
    if analysis.Some? {
      var queried := StableSort(NewerFirst,
        Filter(store, (row: Observation) => Queried(policy, universe, analysis.value, cutoff, row)));
      triggers := SelectCurrent(policy, analysis.value, queried);
    }
    evidence := triggers;
    for i := 0 to |analytics|
      invariant evidence == WithAnalytics(triggers, analytics[..i], cutoff)
    {
      assert analytics[..i + 1][..i] == analytics[..i];
      if KnownBy(analytics[i], cutoff) && !SeenIn(evidence, analytics[i]) {
        evidence := evidence + [analytics[i]];
      }
    }
    assert analytics[..|analytics|] == analytics;
  }

  /** No lookahead: stores that agree on the rows observed by the knowledge cutoff give the same
      current triggers. */
  lemma TriggersIgnoreLaterRows(
      policy: Policy, universe: set<Ticker>, a: seq<Observation>, b: seq<Observation>, analysis: Option<Date>, cutoff: Instant)
    requires Filter(a, (row: Observation) => KnownBy(row, Some(cutoff))) == Filter(b, (row: Observation) => KnownBy(row, Some(cutoff)))
    ensures CurrentTriggers(policy, universe, a, analysis, Some(cutoff)) == CurrentTriggers(policy, universe, b, analysis, Some(cutoff))
  {
    if analysis.Some? {
      var known := (row: Observation) => KnownBy(row, Some(cutoff));
      var queried := (row: Observation) => Queried(policy, universe, analysis.value, Some(cutoff), row);
      FilterRefines(a, known, queried);
      FilterRefines(b, known, queried);
    }
  }

  /** Every row of the evidence is a current trigger or a known analytics row, one per contract,
      and analytics never displace a current trigger. */
  lemma {:induction false} EvidenceMeaning(triggers: seq<Observation>, analytics: seq<Observation>, cutoff: Option<Instant>)
    requires OnePerContract(triggers)
    ensures var rows := WithAnalytics(triggers, analytics, cutoff);
      && triggers <= rows && OnePerContract(rows)
      && (forall r :: r in rows ==> r in triggers || (r in analytics && KnownBy(r, cutoff)))
      && (forall r :: r in analytics && KnownBy(r, cutoff) ==> HasContract(rows, r))
  {
    if analytics == [] {
    } else {
      var front, row := analytics[..|analytics| - 1], analytics[|analytics| - 1];
      EvidenceMeaning(triggers, front, cutoff);
      var before := WithAnalytics(triggers, front, cutoff);
      assert forall r :: r in analytics <==> r in front || r == row;
      SeenInMeaning(before, row);
      if KnownBy(row, cutoff) && !SeenIn(before, row) {
        assert WithAnalytics(triggers, analytics, cutoff) == before + [row];
        OneMoreContract(before, row);
        forall r | r in analytics && KnownBy(r, cutoff)
          ensures HasContract(before + [row], r)
        {
          ContractStep(before, row, r);
        }
      } else {
        assert WithAnalytics(triggers, analytics, cutoff) == before;
      }
    }
  }

  lemma OneMoreContract(rows: seq<Observation>, row: Observation)
    requires OnePerContract(rows) && !HasContract(rows, row)
    ensures OnePerContract(rows + [row])
  {
    forall i | 0 <= i < |rows|
      ensures !SameContract(rows[i], row)
    {
      assert rows[i] in rows;
    }
  }
}
