/** The dealer archiver's run protocol: suppression under the lock, budgeted capture, accounting. */
module DealerRuns {
  import opened Prelude
  import opened TradingCalendar
  import opened DealerSurface
  import opened DealerArchive

  /** The capture configuration; its hash is injective, so it is modelled by the configuration. */
  datatype Config = Config(version: int, enabled: bool, universe: seq<Ticker>, slot: int, maxAttempts: nat, maxUnits: nat)

  datatype RunStatus = Running | Complete | Partial | Empty | SkippedDisabled | Skipped(code: int) | Failed

  datatype TickerStatus = PersistedStatus | ReusedStatus | BudgetNotAttempted | QualityStatus(quality: Quality)

  datatype TickerRow = TickerRow(ticker: Ticker, status: TickerStatus)

  datatype ArchiveRun = ArchiveRun(
    id: int, status: RunStatus, startedAt: Instant, completedAt: Option<Instant>, marketDate: Date,
    scope: seq<Ticker>, config: Config,
    attempted: nat, succeeded: nat, failed: nat, reused: nat, networkAttempts: nat, consumedUnits: nat,
    tickers: seq<TickerRow>)

  datatype UsageEvent = UsageEvent(attempts: nat, consumed: bool)

  datatype Answer =
    | Answered(data: Option<SurfaceData>, status: int)
    | VendorError(code: int)
    | Crash

  /** One vendor call: the usage events it reports and what it ends in. */
  datatype Response = Response(events: seq<UsageEvent>, capturedAt: Instant, answer: Answer)

  datatype Plan = Plan(marketDate: Date, intendedAt: Instant, shouldCapture: bool, status: int)

  datatype Request = Request(tickers: seq<Ticker>, config: Config, captureTime: Instant, plan: Plan, finishedAt: Instant)

  /** The tables and the archiver's usage log, which survives from run to run. */
  datatype State = State(archive: Archive, runs: seq<ArchiveRun>, events: seq<UsageEvent>)

  datatype Error = InvalidTicker | CaptureFailed

  // ---------------------------------------------------------------- suppression

  predicate SameSlot(run: ArchiveRun, marketDate: Date, scope: seq<Ticker>, config: Config) {
    run.marketDate == marketDate && run.scope == scope && run.config == config
  }

  /** `archive_run_suppresses_capture`. */
  predicate Suppresses(run: ArchiveRun, marketDate: Date, scope: seq<Ticker>, config: Config, intendedAt: Instant) {
    && run.status == Complete && run.completedAt.Some?
    && SameSlot(run, marketDate, scope, config)
    && run.startedAt >= intendedAt
  }

  predicate NewerRun(a: ArchiveRun, b: ArchiveRun) {
    a.completedAt.Some? && b.completedAt.Some?
    && (a.completedAt.value > b.completedAt.value
        || (a.completedAt == b.completedAt && a.startedAt > b.startedAt))
  }

  function Newest(runs: seq<ArchiveRun>): Option<ArchiveRun> {
    if runs == [] then None
    else
      var best := Newest(runs[..|runs| - 1]);
      if best.None? || NewerRun(runs[|runs| - 1], best.value) then Some(runs[|runs| - 1]) else best
  }

  /** `reusable_completed_archive_run`: the newest run that suppresses the capture. */
  function Reusable(runs: seq<ArchiveRun>, marketDate: Date, scope: seq<Ticker>, config: Config, intendedAt: Instant): Option<ArchiveRun> {
    Newest(Filter(runs, (run: ArchiveRun) => Suppresses(run, marketDate, scope, config, intendedAt)))
  }

  lemma {:induction false} NewestSome(runs: seq<ArchiveRun>)
    ensures runs == [] <==> Newest(runs).None?
    ensures runs != [] ==> Newest(runs).value in runs
  {
    if runs != [] {
      var front, last := runs[..|runs| - 1], runs[|runs| - 1];
      NewestSome(front);
      assert last in runs && forall r :: r in front ==> r in runs;
      assert Newest(runs) == (if Newest(front).None? || NewerRun(last, Newest(front).value) then Some(last) else Newest(front));
    }
  }

  lemma ReusableMeaning(runs: seq<ArchiveRun>, marketDate: Date, scope: seq<Ticker>, config: Config, intendedAt: Instant)
    ensures var r := Reusable(runs, marketDate, scope, config, intendedAt);
      if r.Some? then r.value in runs && Suppresses(r.value, marketDate, scope, config, intendedAt)
      else forall x :: x in runs ==> !Suppresses(x, marketDate, scope, config, intendedAt)
  {
    var keep := (run: ArchiveRun) => Suppresses(run, marketDate, scope, config, intendedAt);
    FilterMembers(runs, keep);
    NewestSome(Filter(runs, keep));
  }

  // ---------------------------------------------------------------- one capture

  function Attempts(events: seq<UsageEvent>): nat {
    if events == [] then 0 else Attempts(events[..|events| - 1]) + events[|events| - 1].attempts
  }

  function Units(events: seq<UsageEvent>): nat {
    if events == [] then 0 else Units(events[..|events| - 1]) + if events[|events| - 1].consumed then 1 else 0
  }

  predicate Exhausted(events: seq<UsageEvent>, config: Config) {
    Attempts(events) >= config.maxAttempts || Units(events) >= config.maxUnits
  }

  function SurfaceOf(ticker: Ticker, answer: Answer): Surface
    requires !answer.Crash?
  {
    match answer
    case Answered(data, status) => Normalize(ticker, data, status)
    case VendorError(code) => UnavailableSurface(ticker, code)
  }

  function CaptureStatus(s: Surface, answer: Answer, reused: bool): TickerStatus {
    if answer.VendorError? then QualityStatus(Unavailable)
    else if reused then ReusedStatus
    else if Usable(s.quality) then PersistedStatus
    else QualityStatus(s.quality)
  }

  datatype Progress = Progress(archive: Archive, events: seq<UsageEvent>, rows: seq<TickerRow>, crashed: bool)

  /** One ticker of the capture loop; after a crash nothing more happens. */
  function CaptureStep(p: Progress, runId: int, config: Config, ticker: Ticker, response: Response): Progress {
    if p.crashed then p
    else if Exhausted(p.events, config) then p.(rows := p.rows + [TickerRow(ticker, BudgetNotAttempted)])
    else if response.answer.Crash? then p.(events := p.events + response.events, crashed := true)
    else
      var surface := SurfaceOf(ticker, response.answer);
      var persisted := PersistSurface(p.archive, runId, surface, response.capturedAt);
      Progress(persisted.archive, p.events + response.events,
               p.rows + [TickerRow(ticker, CaptureStatus(surface, response.answer, persisted.reused))], false)
  }

  /** The loop over the first `n` tickers; `vendor(i)` answers ticker `i`. */
  function Captured(p: Progress, runId: int, config: Config, tickers: seq<Ticker>, vendor: nat -> Response, n: nat): Progress
    requires n <= |tickers|
  {
    if n == 0 then p else CaptureStep(Captured(p, runId, config, tickers, vendor, n - 1), runId, config, tickers[n - 1], vendor(n - 1))
  }

  // ---------------------------------------------------------------- finishing

  predicate Good(row: TickerRow) { row.status == PersistedStatus || row.status == ReusedStatus }

  predicate WasAttempted(row: TickerRow) { row.status != BudgetNotAttempted }

  function StatusOf(rows: seq<TickerRow>): RunStatus {
    if rows == [] then Empty
    else if forall i :: 0 <= i < |rows| ==> Good(rows[i]) then Complete
    else Partial
  }

  function Finished(run: ArchiveRun, status: RunStatus, rows: seq<TickerRow>, events: seq<UsageEvent>, at: Instant): ArchiveRun {
    var attempted := Filter(rows, (row: TickerRow) => WasAttempted(row));
    var succeeded := Filter(attempted, (row: TickerRow) => Good(row));
    run.(status := status, completedAt := Some(at),
         attempted := |attempted|, succeeded := |succeeded|, failed := |attempted| - |succeeded|,
         reused := |Filter(attempted, (row: TickerRow) => row.status == ReusedStatus)|,
         networkAttempts := Attempts(events), consumedUnits := Units(events), tickers := rows)
  }

  function FailedRun(run: ArchiveRun, events: seq<UsageEvent>, at: Instant): ArchiveRun {
    run.(status := Failed, completedAt := Some(at), networkAttempts := Attempts(events), consumedUnits := Units(events))
  }

  // ---------------------------------------------------------------- one execution

  predicate TickerLeq(a: Ticker, b: Ticker) { a <= b }

  /** `dict.fromkeys`: first occurrences, in order. */
  function FirstOccurrences(tickers: seq<Ticker>): seq<Ticker> {
    if tickers == [] then []
    else
      var ts, t := FirstOccurrences(tickers[..|tickers| - 1]), tickers[|tickers| - 1];
      if t in ts then ts else ts + [t]
  }

  function Selected(r: Request): seq<Ticker> {
    FirstOccurrences(if r.tickers == [] then r.config.universe else r.tickers)
  }

  function Scope(r: Request): seq<Ticker> { StableSort(TickerLeq, Selected(r)) }

  predicate InUniverse(r: Request) { forall i :: 0 <= i < |Selected(r)| ==> Selected(r)[i] in r.config.universe }

  predicate Captures(r: Request) { r.config.enabled && r.plan.shouldCapture }

  function NewRun(s: State, r: Request): ArchiveRun {
    ArchiveRun(|s.runs|, Running, r.captureTime, None, r.plan.marketDate, Scope(r), r.config, 0, 0, 0, 0, 0, 0, [])
  }

  function ReusableFor(s: State, r: Request): Option<ArchiveRun> {
    Reusable(s.runs, r.plan.marketDate, Scope(r), r.config, r.plan.intendedAt)
  }

  datatype Outcome = Outcome(state: State, result: Result<ArchiveRun, Error>)

  function AllCaptured(s: State, r: Request, vendor: nat -> Response): Progress {
    Captured(Progress(s.archive, s.events, [], false), |s.runs|, r.config, Selected(r), vendor, |Selected(r)|)
  }

  /** A non-dry execution that holds the lock. */
  function ExecuteStep(s: State, r: Request, vendor: nat -> Response): Outcome {
    if !InUniverse(r) then Outcome(s, Err(InvalidTicker))
    else if Captures(r) && ReusableFor(s, r).Some? then Outcome(s, Ok(ReusableFor(s, r).value))
    else if !r.config.enabled then
      var run := Finished(NewRun(s, r), SkippedDisabled, [], s.events, r.finishedAt);
      Outcome(s.(runs := s.runs + [run]), Ok(run))
    else if !r.plan.shouldCapture then
      var run := Finished(NewRun(s, r), Skipped(r.plan.status), [], s.events, r.finishedAt);
      Outcome(s.(runs := s.runs + [run]), Ok(run))
    else
      var p := AllCaptured(s, r, vendor);
      if p.crashed then
        Outcome(State(p.archive, s.runs + [FailedRun(NewRun(s, r), p.events, r.finishedAt)], p.events), Err(CaptureFailed))
      else
        var run := Finished(NewRun(s, r), StatusOf(p.rows), p.rows, p.events, r.finishedAt);
        Outcome(State(p.archive, s.runs + [run], p.events), Ok(run))
  }

  class DealerGexArchiver {
    var archive: Archive
    var runs: seq<ArchiveRun>
    var events: seq<UsageEvent>

    constructor (archive: Archive, runs: seq<ArchiveRun>)
      ensures Contents() == State(archive, runs, [])
    {
      this.archive := archive;
      this.runs := runs;
      this.events := [];
    }

    function Contents(): State
      reads this
    {
      State(archive, runs, events)
    }

    method Persist(runId: int, s: Surface, capturedAt: Instant) returns (row: Snapshot, reused: bool)
      modifies this`archive
      ensures Persisted(archive, row, reused) == PersistSurface(old(archive), runId, s, capturedAt)
    {
      if s.identity.Some? {
        var existing := Find(archive.snapshots, s.identity.value);
        if existing.Some? {
          return existing.value, true;
        }
      }
      row := RowFor(archive, runId, s, capturedAt);
      reused := false;
      var cells := if Usable(s.quality) then Tagged(row.id, s.cells) else [];
      archive := Archive(archive.snapshots + [row], archive.cells + cells);
    }

    /** `_finish`: completes the newest run. */
    method Finish(status: RunStatus, rows: seq<TickerRow>, at: Instant) returns (run: ArchiveRun)
      requires runs != []
      modifies this`runs
      ensures run == Finished(old(runs)[|old(runs)| - 1], status, rows, events, at)
      ensures runs == old(runs)[..|old(runs)| - 1] + [run]
    {
      run := Finished(runs[|runs| - 1], status, rows, events, at);
      runs := runs[|runs| - 1 := run];
    }

    /** `_capture_ticker`: one vendor call, normalized and persisted. `before` names the rows so far. */
    method CaptureTicker(runId: int, config: Config, ticker: Ticker, response: Response, ghost before: seq<TickerRow>)
      returns (row: TickerRow, crashed: bool)
      requires !Exhausted(events, config)
      modifies this`archive, this`events
      ensures var p := Progress(old(archive), old(events), before, false);
        Progress(archive, events, if crashed then before else before + [row], crashed)
        == CaptureStep(p, runId, config, ticker, response)
    {
      events := events + response.events;
      row, crashed := TickerRow(ticker, BudgetNotAttempted), true;
      if response.answer.Crash? {
        return;
      }
      var surface: Surface;
      if response.answer.Answered? {
        surface := NormalizeSurface(ticker, response.answer.data, response.answer.status);
      } else {
        surface := UnavailableSurface(ticker, response.answer.code);
      }
      var snapshot, reused := Persist(runId, surface, response.capturedAt);
      row, crashed := TickerRow(ticker, CaptureStatus(surface, response.answer, reused)), false;
    }

    method CaptureAll(runId: int, config: Config, selected: seq<Ticker>, vendor: nat -> Response)
      returns (rows: seq<TickerRow>, crashed: bool)
      modifies this`archive, this`events
      ensures var start := Progress(old(archive), old(events), [], false);
        Progress(archive, events, rows, crashed) == Captured(start, runId, config, selected, vendor, |selected|)
    {
      rows, crashed := [], false;
      ghost var start := Progress(archive, events, [], false);
      for i := 0 to |selected|
        invariant !crashed && Progress(archive, events, rows, false) == Captured(start, runId, config, selected, vendor, i)
      {
        if Exhausted(events, config) {
          rows := rows + [TickerRow(selected[i], BudgetNotAttempted)];
          continue;
        }
        var row: TickerRow;
        row, crashed := CaptureTicker(runId, config, selected[i], vendor(i), rows);
        if crashed {
          CrashStops(start, runId, config, selected, vendor, i + 1);
          return;
        }
        rows := rows + [row];
      }
    }

    method Execute(r: Request, vendor: nat -> Response) returns (result: Result<ArchiveRun, Error>)
      modifies this
      ensures Outcome(Contents(), result) == ExecuteStep(old(Contents()), r, vendor)
    {
      if !InUniverse(r) {
        return Err(InvalidTicker);
      }
      if Captures(r) {
        var existing := ReusableFor(Contents(), r);
        if existing.Some? {
          return Ok(existing.value);
        }
      }
      runs := runs + [NewRun(Contents(), r)];
      if !r.config.enabled {
        var skipped := Finish(SkippedDisabled, [], r.finishedAt);
        return Ok(skipped);
      }
      if !r.plan.shouldCapture {
        var skipped := Finish(Skipped(r.plan.status), [], r.finishedAt);
        return Ok(skipped);
      }
      var rows, crashed := CaptureAll(|runs| - 1, r.config, Selected(r), vendor);
      if crashed {
        runs := runs[|runs| - 1 := FailedRun(runs[|runs| - 1], events, r.finishedAt)];
        return Err(CaptureFailed);
      }
      var finished := Finish(StatusOf(rows), rows, r.finishedAt);
      result := Ok(finished);
    }
  }

  lemma {:induction false} CrashStops(
      p: Progress, runId: int, config: Config, tickers: seq<Ticker>, vendor: nat -> Response, n: nat)
    requires n <= |tickers| && Captured(p, runId, config, tickers, vendor, n).crashed
    ensures Captured(p, runId, config, tickers, vendor, |tickers|) == Captured(p, runId, config, tickers, vendor, n)
  {
    CrashStopsTo(p, runId, config, tickers, vendor, n, |tickers|);
  }

  lemma {:induction false} CrashStopsTo(
      p: Progress, runId: int, config: Config, tickers: seq<Ticker>, vendor: nat -> Response, n: nat, m: nat)
    requires n <= m <= |tickers| && Captured(p, runId, config, tickers, vendor, n).crashed
    ensures Captured(p, runId, config, tickers, vendor, m) == Captured(p, runId, config, tickers, vendor, n)
    decreases m
  {
    if n < m { CrashStopsTo(p, runId, config, tickers, vendor, n, m - 1); }
  }
}
