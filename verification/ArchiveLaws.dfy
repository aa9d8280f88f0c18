/** The laws every archived ticker and every run obeys, whatever the vendor answers. */
module ArchiveLaws {
  import opened Prelude
  import opened TradingCalendar
  import opened ArchivePass
  import opened ArchiveProtocol

  /** Budgets and caps as every reachable machine meets them. */
  predicate Capped(m: Machine, maxRetries: nat) {
    && m.consumed <= MAX_CONSUMED_UNITS && m.attempts <= MAX_NETWORK_ATTEMPTS + maxRetries
    && m.recoveryAttempts <= RECOVERY_MAX_ATTEMPTS_PER_RUN
  }

  lemma RequestIsCapped(vendor: Vendor, m: Machine, maxRetries: nat)
    requires FairVendor(vendor, maxRetries) && Capped(m, maxRetries) && Room(m)
    ensures Capped(Requested(vendor, m), maxRetries)
  {
  }

  /** Polling makes at most three requests and stays within both budgets. */
  lemma {:induction false} PollIsBounded(vendor: Vendor, m: Machine, started: real, tries: nat, maxRetries: nat)
    requires FairVendor(vendor, maxRetries) && Capped(m, maxRetries) && tries < MATERIALIZATION_MAX_ATTEMPTS
    ensures var m' := Poll(vendor, m, started, tries).1;
      && Capped(m', maxRetries) && m.pos <= m'.pos <= m.pos + MATERIALIZATION_MAX_ATTEMPTS - tries
      && m'.recoveryAttempts == m.recoveryAttempts && m'.archived == m.archived
    decreases MATERIALIZATION_MAX_ATTEMPTS - tries
  {
    if Room(m) {
      RequestIsCapped(vendor, m, maxRetries);
      var e, m' := vendor(m.pos), Requested(vendor, m);
      if e.reply.Received? && e.reply.status == 202 && tries + 1 < MATERIALIZATION_MAX_ATTEMPTS {
        PollIsBounded(vendor, Waited(m', e.reply.retryAfter), started, tries + 1, maxRetries);
      }
    }
  }

  // ---------------------------------------------------------------- one ticker

  /** What the end of a ticker's pass says about its row. */
  ghost predicate EndLaw(t: TickerEnd, ticker: Ticker) {
    && (t.row.Some? ==> t.row.value.ticker == ticker)
    && (t.exit == Done ==>
          && t.row.Some? && RowLaw(t.row.value)
          && t.row.value.status in {InvalidOiSurface, NoNewVendorOiSnapshot, TickerComplete, PartialIncompleteChain})
    && (t.exit == BudgetExceeded ==>
          && !Room(t.machine)
          && (t.row.Some? ==> RowLaw(t.row.value) && t.row.value.status in {PartialArchiveBudgetLimit, Running}))
    && (t.exit == VendorFailed && t.row.Some? ==>
          t.row.value.expected > t.row.value.complete + t.row.value.incomplete && t.row.value.omitted == 0)
  }

  lemma RecoveredEndLaw(vendor: Vendor, ticker: Ticker, p: Pass, vendorDate: Date, m: Machine)
    requires Recovering(p, 0) && m.recoveryAttempts <= RECOVERY_MAX_ATTEMPTS_PER_RUN
    ensures EndLaw(RecoveredEnd(vendor, ticker, p, vendorDate, m), ticker)
  {
    RecoverFromSound(vendor, p, 0, vendorDate, [], m);
    RecoveryIsBounded(vendor, p, vendorDate, m);
    var r := RecoverFrom(vendor, p, 0, vendorDate, [], m);
    CompletedRowLaw(ticker, r.pass, r.history);
    RunningRowLaw(ticker, r.pass);
  }

  lemma StoppedLaw(ticker: Ticker, vendorDate: Date, n: PassEnd)
    requires Stopped(n) && n.exit != Done
    ensures EndLaw(TickerEnd(Some(RowOf(ticker, if n.exit == BudgetExceeded then PartialArchiveBudgetLimit else Running, n.pass, None)),
                             n.exit, Kept(n.machine, ticker, vendorDate, n.pass)), ticker)
  {
    if n.exit == BudgetExceeded {
      BudgetRowLaw(ticker, n.pass);
    } else {
      AbortedRowLaw(ticker, n.pass);
    }
  }

  // ---------------------------------------------------------------- the machine through a pass

  /** A step that stays within budgets and leaves the recovery counter alone. */
  ghost predicate StepIsCapped(step: PassStep, p: Pass, i: nat, m: Machine, maxRetries: nat)
    requires StepsInPlace(step, p, i, m)
  {
    i < |p.statuses| == |p.expirations| && Capped(m, maxRetries) ==>
      Capped(step(p, i, m).machine, maxRetries) && step(p, i, m).machine.recoveryAttempts == m.recoveryAttempts
  }

  lemma {:induction false} StepsAreCapped(step: PassStep, p: Pass, i: nat, m: Machine, maxRetries: nat)
    requires i <= |p.statuses| == |p.expirations| && Capped(m, maxRetries)
    requires forall q, j, n :: StepsInPlace(step, q, j, n)
    requires forall q, j, n :: StepIsCapped(step, q, j, n, maxRetries)
    ensures var r := StepsFrom(step, p, i, m);
      Capped(r.machine, maxRetries) && r.machine.recoveryAttempts == m.recoveryAttempts
    decreases |p.statuses| - i
  {
    assert StepsInPlace(step, p, i, m) && StepIsCapped(step, p, i, m, maxRetries);
    if i < |p.statuses| {
      var s := step(p, i, m);
      if s.exit == Done { StepsAreCapped(step, s.pass, i + 1, s.machine, maxRetries); }
    }
  }

  /** The normal pass never exceeds the budgets and takes no recovery attempt. */
  lemma NormalIsCapped(vendor: Vendor, p: Pass, m: Machine, maxRetries: nat)
    requires FairVendor(vendor, maxRetries) && Capped(m, maxRetries) && |p.statuses| == |p.expirations|
    ensures var r := NormalFrom(vendor, p, 0, m);
      Capped(r.machine, maxRetries) && r.machine.recoveryAttempts == m.recoveryAttempts
  {
    StepOfInPlace(vendor);
    forall q, j: nat, n
      ensures StepIsCapped(StepOf(vendor), q, j, n, maxRetries)
    {
      if j < |q.statuses| == |q.expirations| && Capped(n, maxRetries) { NormalStepIsCapped(vendor, q, j, n, maxRetries); }
    }
    StepsAreCapped(StepOf(vendor), p, 0, m, maxRetries);
  }

  lemma NormalStepIsCapped(vendor: Vendor, p: Pass, i: nat, m: Machine, maxRetries: nat)
    requires FairVendor(vendor, maxRetries) && Capped(m, maxRetries) && i < |p.statuses| == |p.expirations|
    ensures var r := NormalStep(vendor, p, i, m);
      Capped(r.machine, maxRetries) && r.machine.recoveryAttempts == m.recoveryAttempts
  {
    PollIsBounded(vendor, m, m.clock, 0, maxRetries);
  }

  /** Both passes of a ticker end lawfully. */
  lemma PassesLaw(vendor: Vendor, ticker: Ticker, scoped: seq<Date>, vendorDate: Date, m: Machine, maxRetries: nat)
    requires DistinctExpirations(scoped) && FairVendor(vendor, maxRetries) && Capped(m, maxRetries)
    ensures EndLaw(PassesOver(vendor, ticker, scoped, vendorDate, m), ticker)
  {
    StartIsSound(scoped);
    NormalFromSound(vendor, Start(scoped), 0, m);
    NormalIsCapped(vendor, Start(scoped), m, maxRetries);
    var n := NormalFrom(vendor, Start(scoped), 0, m);
    if n.exit == Done {
      RecoveredEndLaw(vendor, ticker, n.pass, vendorDate, n.machine);
    } else {
      StoppedLaw(ticker, vendorDate, n);
    }
  }

  /** Every archived ticker ends lawfully: a finished one obeys conservation, a budget stop leaves
      no room, and an abort leaves undecided expiries. */
  lemma TickerLaw(vendor: Vendor, ticker: Ticker, m: Machine, maxRetries: nat)
    requires FairVendor(vendor, maxRetries) && Capped(m, maxRetries)
    ensures EndLaw(TickerPass(vendor, ticker, m), ticker)
  {
    if Room(m) && vendor(m.pos).reply.Received? && OneVendorDate(vendor(m.pos).reply.surface) {
      var parsed, m1 := vendor(m.pos).reply.surface, Requested(vendor, m);
      var vendorDate := parsed[0].vendorDate;
      var scoped := Scoped(parsed, vendorDate);
      if (ticker, vendorDate) !in m1.archived && !HasRepeats(scoped) {
        RequestIsCapped(vendor, m, maxRetries);
        PassesLaw(vendor, ticker, scoped, vendorDate,
                  if scoped == [] then m1 else m1.(archived := m1.archived + {(ticker, vendorDate)}), maxRetries);
      }
    }
  }

  ghost predicate RetryIsCapped(retry: RetryStep, p: Pass, k: nat, m: Machine, maxRetries: nat) {
    Retryable(p, k) && Capped(m, maxRetries) && m.recoveryAttempts < RECOVERY_MAX_ATTEMPTS_PER_RUN ==>
      retry.requires(p, k, m) && Capped(retry(p, k, m).machine, maxRetries)
  }

  lemma {:induction false} RetriesAreCapped(retry: RetryStep, p: Pass, k: nat, history: seq<Recovery>, m: Machine, maxRetries: nat)
    requires Recovering(p, k) && Capped(m, maxRetries)
    requires forall q, j, n :: RetryKeeps(retry, q, j, n)
    requires forall q, j, n :: RetryIsCapped(retry, q, j, n, maxRetries)
    ensures Capped(RetriesFrom(retry, p, k, history, m).machine, maxRetries)
    decreases |p.deferred| - k
  {
    if k < |p.deferred| {
      if m.recoveryAttempts >= RECOVERY_MAX_ATTEMPTS_PER_RUN {
        SkipDeferred(p, k);
        RetriesAreCapped(retry, p, k + 1, history, m, maxRetries);
      } else {
        DeferredRetryable(p, k);
        assert RetryKeeps(retry, p, k, m) && RetryIsCapped(retry, p, k, m, maxRetries);
        var r := retry(p, k, m);
        if r.exit == Done {
          RetriesAreCapped(retry, r.pass, k + 1, history + [Recovery(p.deferred[k].index, r.outcome)], r.machine, maxRetries);
        }
      }
    }
  }

  lemma RecoveryIsCapped(vendor: Vendor, p: Pass, vendorDate: Date, m: Machine, maxRetries: nat)
    requires Recovering(p, 0) && FairVendor(vendor, maxRetries) && Capped(m, maxRetries)
    ensures Capped(RecoverFrom(vendor, p, 0, vendorDate, [], m).machine, maxRetries)
  {
    RetryOfKeeps(vendor, vendorDate);
    forall q, j: nat, n
      ensures RetryIsCapped(RetryOf(vendor, vendorDate), q, j, n, maxRetries)
    {
      if Retryable(q, j) && Capped(n, maxRetries) && n.recoveryAttempts < RECOVERY_MAX_ATTEMPTS_PER_RUN {
        RetryOneIsCapped(vendor, q, j, vendorDate, n, maxRetries);
      }
    }
    RetriesAreCapped(RetryOf(vendor, vendorDate), p, 0, [], m, maxRetries);
  }

  lemma RetryOneIsCapped(vendor: Vendor, p: Pass, k: nat, vendorDate: Date, m: Machine, maxRetries: nat)
    requires Retryable(p, k) && FairVendor(vendor, maxRetries) && Capped(m, maxRetries)
    requires m.recoveryAttempts < RECOVERY_MAX_ATTEMPTS_PER_RUN
    ensures Capped(RetryOne(vendor, p, k, vendorDate, m).machine, maxRetries)
  {
    var m1 := RetryStart(m, p.deferred[k].notBefore);
    if Room(m1) { RequestIsCapped(vendor, m1, maxRetries); }
  }

  lemma PassesAreCapped(vendor: Vendor, ticker: Ticker, scoped: seq<Date>, vendorDate: Date, m: Machine, maxRetries: nat)
    requires DistinctExpirations(scoped) && FairVendor(vendor, maxRetries) && Capped(m, maxRetries)
    ensures Capped(PassesOver(vendor, ticker, scoped, vendorDate, m).machine, maxRetries)
  {
    StartIsSound(scoped);
    NormalFromSound(vendor, Start(scoped), 0, m);
    NormalIsCapped(vendor, Start(scoped), m, maxRetries);
    var n := NormalFrom(vendor, Start(scoped), 0, m);
    if n.exit == Done { RecoveryIsCapped(vendor, n.pass, vendorDate, n.machine, maxRetries); }
  }

  /** Whatever the vendor answers, consumed units stay within 250, network attempts within 350 plus
      one client call's retries, and recovery attempts within seven a run. */
  lemma TickerIsCapped(vendor: Vendor, ticker: Ticker, m: Machine, maxRetries: nat)
    requires FairVendor(vendor, maxRetries) && Capped(m, maxRetries)
    ensures Capped(TickerPass(vendor, ticker, m).machine, maxRetries)
  {
    if Room(m) {
      RequestIsCapped(vendor, m, maxRetries);
      if vendor(m.pos).reply.Received? && OneVendorDate(vendor(m.pos).reply.surface) {
        var parsed, m1 := vendor(m.pos).reply.surface, Requested(vendor, m);
        var vendorDate := parsed[0].vendorDate;
        var scoped := Scoped(parsed, vendorDate);
        if (ticker, vendorDate) !in m1.archived && !HasRepeats(scoped) {
          PassesAreCapped(vendor, ticker, scoped, vendorDate,
                          if scoped == [] then m1 else m1.(archived := m1.archived + {(ticker, vendorDate)}), maxRetries);
        }
      }
    }
  }

  // ---------------------------------------------------------------- one run

  /** Statuses that only a budget-limited run leaves behind. */
  predicate LimitedRow(row: TickerRow) {
    row.status == Running || row.status == PartialArchiveBudgetLimit || row.status == TickerBudgetNotAttempted
  }

  /** Rows for the first tickers, each lawful and none cut short by the budget. */
  ghost predicate LawfulRows(rows: seq<TickerRow>, universe: seq<Ticker>, n: nat) {
    && n <= |universe| && |rows| == n
    && forall i :: 0 <= i < n ==> rows[i].ticker == universe[i] && RowLaw(rows[i]) && !LimitedRow(rows[i])
  }

  ghost predicate PassIsLawful(pass: TickerStep, ticker: Ticker, m: Machine, maxRetries: nat) {
    Capped(m, maxRetries) ==> EndLaw(pass(ticker, m), ticker) && Capped(pass(ticker, m).machine, maxRetries)
  }

  /** What the end of a run says: one lawful row a ticker, a status that follows from the rows, and
      budget-limited rows only when a budget was hit. */
  ghost predicate RunLaw(r: RunEnd, universe: seq<Ticker>) {
    && (r.status != RunFailed ==>
          && |r.rows| == |universe|
          && (forall i :: 0 <= i < |r.rows| ==> r.rows[i].ticker == universe[i] && RowLaw(r.rows[i]))
          && r.status == FinishStatus(r.budgetLimited, r.rows))
    && (r.status != RunFailed && !r.budgetLimited ==> forall i :: 0 <= i < |r.rows| ==> !LimitedRow(r.rows[i]))
    && (r.budgetLimited ==> !Room(r.machine))
  }

  lemma NextRow(rows: seq<TickerRow>, universe: seq<Ticker>, n: nat, row: TickerRow)
    requires LawfulRows(rows, universe, n) && n < |universe|
    requires row.ticker == universe[n] && RowLaw(row) && !LimitedRow(row)
    ensures LawfulRows(rows + [row], universe, n + 1)
  {
  }

  lemma LimitedRun(rows: seq<TickerRow>, universe: seq<Ticker>, n: nat, current: TickerRow)
    requires LawfulRows(rows, universe, n) && n < |universe| && current.ticker == universe[n] && RowLaw(current)
    ensures var all := rows + [current] + UnattemptedRows(universe[n + 1..]);
      |all| == |universe| && forall i :: 0 <= i < |all| ==> all[i].ticker == universe[i] && RowLaw(all[i])
  {
    var all := rows + [current] + UnattemptedRows(universe[n + 1..]);
    forall i | 0 <= i < |all|
      ensures all[i].ticker == universe[i] && RowLaw(all[i])
    {
      if i < n {
        assert all[i] == rows[i];
      } else if i > n {
        assert all[i] == EmptyRow(universe[n + 1..][i - n - 1], TickerBudgetNotAttempted);
      }
    }
  }

  lemma {:induction false} RunFromLaw(pass: TickerStep, universe: seq<Ticker>, n: nat, rows: seq<TickerRow>, m: Machine, maxRetries: nat)
    requires LawfulRows(rows, universe, n) && Capped(m, maxRetries)
    requires forall ticker, k :: PassIsLawful(pass, ticker, k, maxRetries)
    ensures RunLaw(RunFrom(pass, universe, n, rows, m), universe)
    ensures Capped(RunFrom(pass, universe, n, rows, m).machine, maxRetries)
    decreases |universe| - n
  {
    if n < |universe| {
      assert PassIsLawful(pass, universe[n], m, maxRetries);
      var t := pass(universe[n], m);
      match t.exit
      case Done =>
        NextRow(rows, universe, n, t.row.value);
        RunFromLaw(pass, universe, n + 1, rows + [t.row.value], t.machine, maxRetries);
      case VendorFailed =>
        NextRow(rows, universe, n, ErrorRow(universe[n], t.row));
        RunFromLaw(pass, universe, n + 1, rows + [ErrorRow(universe[n], t.row)], t.machine, maxRetries);
      case BudgetExceeded =>
        LimitedRun(rows, universe, n, if t.row.Some? then t.row.value else EmptyRow(universe[n], TickerBudgetNotAttempted));
      case StorageConflict =>
    }
  }

  /** Every run over any vendor's answers is lawful and stays within its budgets and caps. */
  lemma EveryRunIsLawful(vendor: Vendor, universe: seq<Ticker>, m: Machine, maxRetries: nat)
    requires FairVendor(vendor, maxRetries) && Capped(m, maxRetries)
    ensures var r := RunFrom(PassOf(vendor), universe, 0, [], m);
      RunLaw(r, universe) && Capped(r.machine, maxRetries)
  {
    forall ticker, k
      ensures PassIsLawful(PassOf(vendor), ticker, k, maxRetries)
    {
      if Capped(k, maxRetries) {
        TickerLaw(vendor, ticker, k, maxRetries);
        TickerIsCapped(vendor, ticker, k, maxRetries);
      }
    }
    RunFromLaw(PassOf(vendor), universe, 0, [], m, maxRetries);
  }

  /** A run is COMPLETE exactly when no budget was hit, every ticker is complete or had no new
      snapshot, and at least one is complete. */
  lemma RunCompleteIff(budgetLimited: bool, rows: seq<TickerRow>)
    requires rows != [] && (!budgetLimited ==> forall i :: 0 <= i < |rows| ==> !LimitedRow(rows[i]))
    ensures FinishStatus(budgetLimited, rows) == RunComplete
      <==> && !budgetLimited
           && (forall i :: 0 <= i < |rows| ==> rows[i].status == TickerComplete || rows[i].status == NoNewVendorOiSnapshot)
           && (exists i :: 0 <= i < |rows| && rows[i].status == TickerComplete)
  {
    if !budgetLimited && forall i :: 0 <= i < |rows| ==> !Degraded(rows[i]) {
      forall i | 0 <= i < |rows|
        ensures rows[i].status == TickerComplete || rows[i].status == NoNewVendorOiSnapshot
      {
        assert !Degraded(rows[i]) && !LimitedRow(rows[i]);
      }
    }
  }

  /** The expiries in scope are the surface's expiries of tenor 0..180 days. */
  lemma {:induction false} ScopedInRange(parsed: seq<DailyExpiryOi>, vendorDate: Date)
    ensures forall e ::
      e in Scoped(parsed, vendorDate) <==> 0 <= e - vendorDate <= 180 && exists i :: 0 <= i < |parsed| && parsed[i].expiration == e
  {
    if parsed != [] {
      var front := parsed[..|parsed| - 1];
      ScopedInRange(front, vendorDate);
      forall e
        ensures e in Scoped(parsed, vendorDate)
          <==> 0 <= e - vendorDate <= 180 && exists i :: 0 <= i < |parsed| && parsed[i].expiration == e
      {
        if i :| 0 <= i < |parsed| && parsed[i].expiration == e {
          assert i < |front| ==> front[i].expiration == e;
        }
        if e in Scoped(front, vendorDate) {
          var i :| 0 <= i < |front| && front[i].expiration == e;
          assert parsed[i].expiration == e;
        }
        if e == parsed[|parsed| - 1].expiration {
          assert parsed[|parsed| - 1].expiration == e;
        }
      }
    }
  }
}
