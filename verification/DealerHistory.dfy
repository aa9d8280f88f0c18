/** The dealer archive over whole sequences of locked executions. */
module DealerHistory {
  import opened Prelude
  import opened TradingCalendar
  import opened DealerSurface
  import opened DealerArchive
  import opened DealerRuns

  // ---------------------------------------------------------------- one execution

  /** A step adds one row under its ticker, or crashes and adds none. */
  lemma CaptureStepRows(p: Progress, runId: int, config: Config, ticker: Ticker, response: Response)
    ensures var q := CaptureStep(p, runId, config, ticker, response);
      if q.crashed then q.rows == p.rows
      else !p.crashed && |q.rows| == |p.rows| + 1 && p.rows <= q.rows && q.rows[|p.rows|].ticker == ticker
  {
  }

  ghost predicate RowsFollow(q: Progress, tickers: seq<Ticker>, n: nat) {
    && |q.rows| <= n && |q.rows| <= |tickers| && (!q.crashed ==> |q.rows| == n)
    && forall i :: 0 <= i < |q.rows| ==> q.rows[i].ticker == tickers[i]
  }

  lemma RowsFollowStep(p: Progress, q: Progress, tickers: seq<Ticker>, n: nat)
    requires n < |tickers| && RowsFollow(p, tickers, n)
    requires if q.crashed then q.rows == p.rows
             else !p.crashed && |q.rows| == |p.rows| + 1 && p.rows <= q.rows && q.rows[|p.rows|].ticker == tickers[n]
    ensures RowsFollow(q, tickers, n + 1)
  {
  }

  lemma {:induction false} CapturedFollows(
      p: Progress, runId: int, config: Config, tickers: seq<Ticker>, vendor: nat -> Response, n: nat)
    requires n <= |tickers| && p.rows == [] && !p.crashed
    ensures RowsFollow(Captured(p, runId, config, tickers, vendor, n), tickers, n)
  {
    if n > 0 {
      CapturedFollows(p, runId, config, tickers, vendor, n - 1);
      var q := Captured(p, runId, config, tickers, vendor, n - 1);
      CaptureStepRows(q, runId, config, tickers[n - 1], vendor(n - 1));
      RowsFollowStep(q, CaptureStep(q, runId, config, tickers[n - 1], vendor(n - 1)), tickers, n - 1);
    }
  }

  lemma {:induction false} FilterCounts(rows: seq<TickerRow>, keep: TickerRow -> bool)
    ensures |Filter(rows, keep)| == |rows| <==> forall i :: 0 <= i < |rows| ==> keep(rows[i])
  {
    if rows != [] { FilterCounts(rows[..|rows| - 1], keep); }
  }

  lemma {:induction false} FilterSplits(rows: seq<TickerRow>, keep: TickerRow -> bool, drop: TickerRow -> bool)
    requires forall row :: drop(row) == !keep(row)
    ensures |Filter(rows, keep)| + |Filter(rows, drop)| == |rows|
  {
    if rows != [] { FilterSplits(rows[..|rows| - 1], keep, drop); }
  }

  lemma FilterGood(rows: seq<TickerRow>)
    ensures Filter(Filter(rows, (row: TickerRow) => WasAttempted(row)), (row: TickerRow) => Good(row))
         == Filter(rows, (row: TickerRow) => Good(row))
  {
    FilterRefines(rows, (row: TickerRow) => WasAttempted(row), (row: TickerRow) => Good(row));
  }

  function Omitted(rows: seq<TickerRow>): nat { |Filter(rows, (row: TickerRow) => !WasAttempted(row))| }

  /** Accounting of a finished run: attempted and budget-omitted tickers make up all of them,
      attempted ones succeed or fail, and a complete run has no failure and no omission. */
  lemma FinishedAccounts(run: ArchiveRun, rows: seq<TickerRow>, events: seq<UsageEvent>, at: Instant)
    ensures var f := Finished(run, StatusOf(rows), rows, events, at);
      && f.attempted == f.succeeded + f.failed
      && f.attempted + Omitted(rows) == |rows|
      && (f.status == Complete <==> rows != [] && f.succeeded == |rows|)
      && (f.status == Complete ==> f.failed == 0 && Omitted(rows) == 0)
      && (f.status == Empty <==> rows == [])
  {
    var attempted := Filter(rows, (row: TickerRow) => WasAttempted(row));
    FilterGood(rows);
    FilterCounts(rows, (row: TickerRow) => Good(row));
    FilterSplits(rows, (row: TickerRow) => WasAttempted(row), (row: TickerRow) => !WasAttempted(row));
  }

  /** Every call reports at most `most` attempts. */
  ghost predicate AttemptsAtMost(vendor: nat -> Response, most: nat) {
    forall i: nat :: Attempts(vendor(i).events) <= most
  }

  lemma {:induction false} AttemptsConcat(a: seq<UsageEvent>, b: seq<UsageEvent>)
    ensures Attempts(a + b) == Attempts(a) + Attempts(b)
  {
    if b == [] {
      assert a + b == a;
    } else {
      AttemptsConcat(a, b[..|b| - 1]);
      assert (a + b)[..|a + b| - 1] == a + b[..|b| - 1];
    }
  }

  function Larger(a: int, b: int): int { if a < b then b else a }

  /** The loop stops starting calls at the attempt budget: it is exceeded by less than the
      attempts of one call. */
  lemma {:induction false} AttemptsBounded(
      p: Progress, runId: int, config: Config, tickers: seq<Ticker>, vendor: nat -> Response, n: nat, most: nat)
    requires n <= |tickers| && AttemptsAtMost(vendor, most)
    ensures Attempts(Captured(p, runId, config, tickers, vendor, n).events)
         <= Larger(Attempts(p.events), config.maxAttempts + most - 1)
  {
    if n > 0 {
      AttemptsBounded(p, runId, config, tickers, vendor, n - 1, most);
      var q := Captured(p, runId, config, tickers, vendor, n - 1);
      AttemptsConcat(q.events, vendor(n - 1).events);
    }
  }

  /** Every call consumes at most one unit. */
  ghost predicate OneUnitAtMost(vendor: nat -> Response) {
    forall i: nat :: Units(vendor(i).events) <= 1
  }

  lemma {:induction false} UnitsConcat(a: seq<UsageEvent>, b: seq<UsageEvent>)
    ensures Units(a + b) == Units(a) + Units(b)
  {
    if b == [] {
      assert a + b == a;
    } else {
      UnitsConcat(a, b[..|b| - 1]);
      assert (a + b)[..|a + b| - 1] == a + b[..|b| - 1];
    }
  }

  /** With one unit a call, a run never takes the log past the unit budget. */
  lemma {:induction false} UnitsBounded(
      p: Progress, runId: int, config: Config, tickers: seq<Ticker>, vendor: nat -> Response, n: nat)
    requires n <= |tickers| && OneUnitAtMost(vendor)
    ensures Units(Captured(p, runId, config, tickers, vendor, n).events) <= Larger(Units(p.events), config.maxUnits)
  {
    if n > 0 {
      UnitsBounded(p, runId, config, tickers, vendor, n - 1);
      var q := Captured(p, runId, config, tickers, vendor, n - 1);
      UnitsConcat(q.events, vendor(n - 1).events);
    }
  }

  // ---------------------------------------------------------------- the log across executions

  predicate AllOmitted(rows: seq<TickerRow>, tickers: seq<Ticker>) {
    |rows| == |tickers| && forall i :: 0 <= i < |rows| ==> rows[i] == TickerRow(tickers[i], BudgetNotAttempted)
  }

  /** An exhausted log lets no call start. */
  lemma {:induction false} ExhaustedCaptures(
      p: Progress, runId: int, config: Config, tickers: seq<Ticker>, vendor: nat -> Response, n: nat)
    requires n <= |tickers| && p.rows == [] && !p.crashed && Exhausted(p.events, config)
    ensures var q := Captured(p, runId, config, tickers, vendor, n);
      q == p.(rows := q.rows) && AllOmitted(q.rows, tickers[..n])
  {
    if n > 0 { ExhaustedCaptures(p, runId, config, tickers, vendor, n - 1); }
  }

  /** A log with budget left lets the first call start. */
  lemma {:induction false} FirstIsAttempted(
      p: Progress, runId: int, config: Config, tickers: seq<Ticker>, vendor: nat -> Response, n: nat)
    requires 0 < n <= |tickers| && p.rows == [] && !p.crashed && !Exhausted(p.events, config)
    ensures var q := Captured(p, runId, config, tickers, vendor, n);
      !q.crashed ==> q.rows != [] && WasAttempted(q.rows[0])
  {
    if n > 1 {
      FirstIsAttempted(p, runId, config, tickers, vendor, n - 1);
    } else {
      assert Captured(p, runId, config, tickers, vendor, 0) == p;
    }
  }

  /** A capture that is neither rejected nor suppressed. */
  predicate Starts(s: State, r: Request) { InUniverse(r) && Captures(r) && ReusableFor(s, r).None? }

  /** The log is never reset, so what an earlier execution of the object used up counts: an
      execution that starts attempts a ticker exactly when the log leaves budget and there is one.
      On an exhausted log it omits every ticker and leaves archive and log as they were. */
  lemma AttemptsIffRoom(s: State, r: Request, vendor: nat -> Response)
    requires Starts(s, r) && ExecuteStep(s, r, vendor).result.Ok?
    ensures var o := ExecuteStep(s, r, vendor);
      && (o.result.value.attempted > 0 <==> !Exhausted(s.events, r.config) && Selected(r) != [])
      && (Exhausted(s.events, r.config) ==>
            && o.state.archive == s.archive && o.state.events == s.events
            && AllOmitted(o.result.value.tickers, Selected(r)))
  {
    var start, all := Progress(s.archive, s.events, [], false), Selected(r);
    var rows := ExecuteStep(s, r, vendor).result.value.tickers;
    if Exhausted(s.events, r.config) {
      ExhaustedCaptures(start, |s.runs|, r.config, all, vendor, |all|);
      assert all[..|all|] == all;
      FilterEmpty(rows, (row: TickerRow) => WasAttempted(row));
    } else if all != [] {
      FirstIsAttempted(start, |s.runs|, r.config, all, vendor, |all|);
      FilterMembers(rows, (row: TickerRow) => WasAttempted(row));
      assert rows[0] in Filter(rows, (row: TickerRow) => WasAttempted(row));
    }
  }

  /** Every execution of a fresh archiver stays within its attempt budget plus one call's further
      attempts, and with one unit a call within its unit budget. */
  lemma FreshExecutionIsBounded(s: State, r: Request, vendor: nat -> Response, most: nat)
    requires s.events == [] && AttemptsAtMost(vendor, most)
    ensures var o := ExecuteStep(s, r, vendor);
      && Attempts(o.state.events) <= Larger(0, r.config.maxAttempts + most - 1)
      && (OneUnitAtMost(vendor) ==> Units(o.state.events) <= r.config.maxUnits)
      && (|o.state.runs| > |s.runs| ==> o.state.runs[|s.runs|].networkAttempts == Attempts(o.state.events))
      && (|o.state.runs| > |s.runs| ==> o.state.runs[|s.runs|].consumedUnits == Units(o.state.events))
  {
    var start := Progress(s.archive, s.events, [], false);
    AttemptsBounded(start, |s.runs|, r.config, Selected(r), vendor, |Selected(r)|, most);
    if OneUnitAtMost(vendor) { UnitsBounded(start, |s.runs|, r.config, Selected(r), vendor, |Selected(r)|); }
  }

  /** One object, two market dates: a budget of one attempt, one ticker, a refusing vendor. */
  function OneAttempt(ticker: Ticker): Config { Config(1, true, [ticker], 0, 1, 1) }

  function OnDate(ticker: Ticker, marketDate: Date): Request {
    Request([ticker], OneAttempt(ticker), marketDate, Plan(marketDate, marketDate, true, 0), marketDate)
  }

  function RefusingVendor(): nat -> Response { (i: nat) => Response([UsageEvent(1, true)], 0, VendorError(500)) }

  lemma OneSelected(ticker: Ticker, marketDate: Date)
    ensures Selected(OnDate(ticker, marketDate)) == [ticker] && InUniverse(OnDate(ticker, marketDate))
  {
    assert [ticker][..0] == [];
    assert FirstOccurrences([ticker][..0]) == [];
  }

  lemma OneCapture(s: State, ticker: Ticker, marketDate: Date)
    requires forall i :: 0 <= i < |s.runs| ==> s.runs[i].marketDate != marketDate
    ensures Starts(s, OnDate(ticker, marketDate)) && Selected(OnDate(ticker, marketDate)) == [ticker]
    ensures var o := ExecuteStep(s, OnDate(ticker, marketDate), RefusingVendor());
      && o.result.Ok? && o.result.value.marketDate == marketDate && o.state.runs == s.runs + [o.result.value]
      && (s.events == [] ==> o.state.events == [UsageEvent(1, true)])
  {
    var r := OnDate(ticker, marketDate);
    OneSelected(ticker, marketDate);
    ReusableMeaning(s.runs, marketDate, Scope(r), r.config, marketDate);
    var start := Progress(s.archive, s.events, [], false);
    assert Captured(start, |s.runs|, r.config, [ticker], RefusingVendor(), 0) == start;
    assert AllCaptured(s, r, RefusingVendor()) == CaptureStep(start, |s.runs|, r.config, ticker, RefusingVendor()(0));
    assert Attempts([]) == 0 && Units([]) == 0;
  }

  /** The second execution attempts nothing; a fresh object on the same tables would. */
  lemma SecondExecutionOmits(ticker: Ticker)
    ensures var nothing := State(Archive([], []), [], []);
      var s := ExecuteStep(nothing, OnDate(ticker, 1), RefusingVendor()).state;
      var second := ExecuteStep(s, OnDate(ticker, 2), RefusingVendor()).result;
      var anew := ExecuteStep(s.(events := []), OnDate(ticker, 2), RefusingVendor()).result;
      second.Ok? && second.value.attempted == 0 && anew.Ok? && anew.value.attempted > 0
  {
    var nothing := State(Archive([], []), [], []);
    OneCapture(nothing, ticker, 1);
    var s := ExecuteStep(nothing, OnDate(ticker, 1), RefusingVendor()).state;
    assert [UsageEvent(1, true)][..0] == [];
    assert Exhausted(s.events, OneAttempt(ticker)) && !Exhausted([], OneAttempt(ticker));
    OneCapture(s, ticker, 2);
    OneCapture(s.(events := []), ticker, 2);
    AttemptsIffRoom(s, OnDate(ticker, 2), RefusingVendor());
    AttemptsIffRoom(s.(events := []), OnDate(ticker, 2), RefusingVendor());
  }

  ghost predicate Extends(a: Archive, b: Archive) {
    a.snapshots <= b.snapshots && a.cells <= b.cells
  }

  lemma SurfaceIsSound(ticker: Ticker, answer: Answer)
    requires !answer.Crash?
    ensures SoundSurface(SurfaceOf(ticker, answer))
  {
    if answer.Answered? { NormalizedIsSound(ticker, answer.data, answer.status); }
  }

  lemma CaptureStepKeeps(q: Progress, runId: int, config: Config, ticker: Ticker, r: Response)
    requires ValidArchive(q.archive)
    ensures ValidArchive(CaptureStep(q, runId, config, ticker, r).archive)
    ensures Extends(q.archive, CaptureStep(q, runId, config, ticker, r).archive)
  {
    if !q.crashed && !Exhausted(q.events, config) && !r.answer.Crash? {
      SurfaceIsSound(ticker, r.answer);
      PersistKeeps(q.archive, runId, SurfaceOf(ticker, r.answer), r.capturedAt);
    }
  }

  lemma {:induction false} CaptureKeepsArchive(
      p: Progress, runId: int, config: Config, tickers: seq<Ticker>, vendor: nat -> Response, n: nat)
    requires n <= |tickers| && ValidArchive(p.archive)
    ensures ValidArchive(Captured(p, runId, config, tickers, vendor, n).archive)
    ensures Extends(p.archive, Captured(p, runId, config, tickers, vendor, n).archive)
  {
    if n > 0 {
      CaptureKeepsArchive(p, runId, config, tickers, vendor, n - 1);
      CaptureStepKeeps(Captured(p, runId, config, tickers, vendor, n - 1), runId, config, tickers[n - 1], vendor(n - 1));
    }
  }

  // ---------------------------------------------------------------- at most one complete run

  /** The slot's instant on a market date, fixed by the configuration. */
  type Slots = (Date, Config) -> Instant

  predicate Consumes(run: ArchiveRun, slots: Slots) {
    run.status == Complete && run.startedAt >= slots(run.marketDate, run.config)
  }

  predicate SameKey(a: ArchiveRun, b: ArchiveRun) {
    SameSlot(a, b.marketDate, b.scope, b.config)
  }

  ghost predicate Exclusive(runs: seq<ArchiveRun>, slots: Slots) {
    forall i, j :: 0 <= i < j < |runs| ==>
      !(Consumes(runs[i], slots) && Consumes(runs[j], slots) && SameKey(runs[i], runs[j]))
  }

  ghost predicate CompletionTimed(runs: seq<ArchiveRun>) {
    forall i :: 0 <= i < |runs| ==> runs[i].status == Complete ==> runs[i].completedAt.Some?
  }

  /** Attempted tickers succeed or fail; a complete run has no failed and no budget-omitted ticker. */
  predicate Accounted(run: ArchiveRun) {
    && run.attempted == run.succeeded + run.failed
    && (run.status == Complete ==> run.failed == 0 && Omitted(run.tickers) == 0 && run.succeeded == |run.tickers| > 0)
  }

  ghost predicate AllAccounted(runs: seq<ArchiveRun>) {
    forall i :: 0 <= i < |runs| ==> Accounted(runs[i])
  }

  ghost predicate ValidState(s: State, slots: Slots) {
    ValidArchive(s.archive) && Exclusive(s.runs, slots) && CompletionTimed(s.runs) && AllAccounted(s.runs)
  }

  ghost predicate Scheduled(r: Request, slots: Slots) {
    r.plan.intendedAt == slots(r.plan.marketDate, r.config)
  }

  lemma AppendedRun(s: State, r: Request, vendor: nat -> Response)
    ensures var s' := ExecuteStep(s, r, vendor).state;
      || s'.runs == s.runs
      || (&& |s'.runs| == |s.runs| + 1 && s'.runs[..|s.runs|] == s.runs
          && var run := s'.runs[|s.runs|];
             && SameSlot(run, r.plan.marketDate, Scope(r), r.config) && run.startedAt == r.captureTime
             && run.completedAt == Some(r.finishedAt)
             && (run.status == Complete ==> Captures(r) && ReusableFor(s, r).None?))
  {
  }

  lemma AppendedIsAccounted(s: State, r: Request, vendor: nat -> Response)
    ensures var runs := ExecuteStep(s, r, vendor).state.runs;
      runs != s.runs ==> |runs| > |s.runs| && Accounted(runs[|s.runs|])
  {
    AppendedRun(s, r, vendor);
    var p := AllCaptured(s, r, vendor);
    FinishedAccounts(NewRun(s, r), p.rows, p.events, r.finishedAt);
  }

  /** An execution keeps the state valid: a run completes for a slot only when no earlier
      completed run has consumed it. */
  lemma StepKeeps(s: State, r: Request, vendor: nat -> Response, slots: Slots)
    requires ValidState(s, slots) && Scheduled(r, slots)
    ensures ValidState(ExecuteStep(s, r, vendor).state, slots)
  {
    var s' := ExecuteStep(s, r, vendor).state;
    CaptureKeepsArchive(Progress(s.archive, s.events, [], false), |s.runs|, r.config, Selected(r), vendor, |Selected(r)|);
    assert ValidArchive(s'.archive);
    AppendedRun(s, r, vendor);
    if s'.runs != s.runs {
      ExclusiveStep(s, r, s'.runs[|s.runs|], slots);
      AppendedIsAccounted(s, r, vendor);
      assert s'.runs == s.runs + [s'.runs[|s.runs|]];
    }
  }

  lemma ExclusiveStep(s: State, r: Request, run: ArchiveRun, slots: Slots)
    requires ValidState(s, slots) && Scheduled(r, slots)
    requires SameSlot(run, r.plan.marketDate, Scope(r), r.config) && run.completedAt.Some?
    requires run.status == Complete ==> Captures(r) && ReusableFor(s, r).None?
    ensures Exclusive(s.runs + [run], slots) && CompletionTimed(s.runs + [run])
  {
    if Consumes(run, slots) {
      ReusableMeaning(s.runs, r.plan.marketDate, Scope(r), r.config, r.plan.intendedAt);
      forall i | 0 <= i < |s.runs|
        ensures !(Consumes(s.runs[i], slots) && SameKey(s.runs[i], run))
      {
        assert s.runs[i] in s.runs;
        assert !Suppresses(s.runs[i], r.plan.marketDate, Scope(r), r.config, r.plan.intendedAt);
      }
    }
  }

  datatype Call = Call(request: Request, vendor: nat -> Response)

  function AfterCalls(s: State, calls: seq<Call>): State {
    if calls == [] then s
    else ExecuteStep(AfterCalls(s, calls[..|calls| - 1]), calls[|calls| - 1].request, calls[|calls| - 1].vendor).state
  }

  ghost predicate AllScheduled(calls: seq<Call>, slots: Slots) {
    forall i :: 0 <= i < |calls| ==> Scheduled(calls[i].request, slots)
  }

  /** Over any sequence of executions each (date, slot, scope, configuration) has at most one
      complete run started at or after its slot, every run is accounted for, observation identities
      stay unique, and no stored snapshot, cell or run is removed. */
  lemma {:induction false} CallsKeep(s: State, calls: seq<Call>, slots: Slots)
    requires ValidState(s, slots) && AllScheduled(calls, slots)
    ensures var s' := AfterCalls(s, calls);
      && ValidState(s', slots)
      && Extends(s.archive, s'.archive) && s.runs <= s'.runs
  {
    if calls != [] {
      var front, call := calls[..|calls| - 1], calls[|calls| - 1];
      CallsKeep(s, front, slots);
      var mid := AfterCalls(s, front);
      StepKeeps(mid, call.request, call.vendor, slots);
      StepAppends(mid, call.request, call.vendor);
    }
  }

  lemma StepAppends(s: State, r: Request, vendor: nat -> Response)
    requires ValidArchive(s.archive)
    ensures var s' := ExecuteStep(s, r, vendor).state;
      Extends(s.archive, s'.archive) && s.runs <= s'.runs
  {
    CaptureKeepsArchive(Progress(s.archive, s.events, [], false), |s.runs|, r.config, Selected(r), vendor, |Selected(r)|);
    AppendedRun(s, r, vendor);
  }

  /** Once a slot is consumed, every later capture of it returns a stored complete run and changes
      nothing, whatever the vendor would have answered. */
  lemma ConsumedSlotIsSuppressed(s: State, calls: seq<Call>, slots: Slots, run: ArchiveRun, r: Request, vendor: nat -> Response)
    requires ValidState(s, slots) && AllScheduled(calls, slots) && Scheduled(r, slots)
    requires run in s.runs && Consumes(run, slots)
    requires InUniverse(r) && Captures(r) && SameSlot(run, r.plan.marketDate, Scope(r), r.config)
    ensures var later := AfterCalls(s, calls);
      ExecuteStep(later, r, vendor) == Outcome(later, Ok(run))
  {
    CallsKeep(s, calls, slots);
    var later := AfterCalls(s, calls);
    var i :| 0 <= i < |s.runs| && s.runs[i] == run;
    assert later.runs[i] == run;
    assert run in later.runs && Suppresses(run, r.plan.marketDate, Scope(r), r.config, r.plan.intendedAt);
    ReusableMeaning(later.runs, r.plan.marketDate, Scope(r), r.config, r.plan.intendedAt);
    var reused := ReusableFor(later, r).value;
    var j :| 0 <= j < |later.runs| && later.runs[j] == reused;
    assert Consumes(reused, slots) && SameKey(reused, run) && SameKey(run, reused);
    assert i == j;
  }

  /** A finished capture reports every selected ticker once, in order, with the accounting of
      `FinishedAccounts`. */
  lemma CaptureAccounts(s: State, r: Request, vendor: nat -> Response)
    requires InUniverse(r) && Captures(r) && ReusableFor(s, r).None? && ExecuteStep(s, r, vendor).result.Ok?
    ensures var run := ExecuteStep(s, r, vendor).result.value;
      && |run.tickers| == |Selected(r)| && (forall i :: 0 <= i < |run.tickers| ==> run.tickers[i].ticker == Selected(r)[i])
      && run.attempted == run.succeeded + run.failed
      && run.attempted + Omitted(run.tickers) == |Selected(r)|
      && (run.status == Complete <==> Selected(r) != [] && run.succeeded == |Selected(r)|)
  {
    CapturedFollows(Progress(s.archive, s.events, [], false), |s.runs|, r.config, Selected(r), vendor, |Selected(r)|);
    var p := AllCaptured(s, r, vendor);
    FinishedAccounts(NewRun(s, r), p.rows, p.events, r.finishedAt);
  }
}
