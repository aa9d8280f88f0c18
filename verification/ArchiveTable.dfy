/** The contract table over whole runs: every contract of a vendor date is stored once. */
module ArchiveTable {
  import opened Prelude
  import opened TradingCalendar
  import opened ChainParser
  import opened ArchivePass
  import opened ArchiveProtocol
  import opened ArchiveLaws

  // ---------------------------------------------------------------- the table

  predicate SameContract(a: StoredContract, b: StoredContract) {
    a.ticker == b.ticker && a.vendorDate == b.vendorDate && a.contract.symbol == b.contract.symbol
  }

  /** No contract of a vendor date is stored twice, and only archived vendor dates have contracts. */
  ghost predicate SoundTable(m: Machine) {
    && (forall i, j :: 0 <= i < j < |m.table| ==> !SameContract(m.table[i], m.table[j]))
    && forall i :: 0 <= i < |m.table| ==> (m.table[i].ticker, m.table[i].vendorDate) in m.archived
  }

  /** What a pass over a ticker leaves alone until it is over. */
  predicate SameTable(m: Machine, n: Machine) { m.table == n.table && m.archived == n.archived }

  lemma {:induction false} PollLeavesTable(vendor: Vendor, m: Machine, started: real, tries: nat)
    requires tries < MATERIALIZATION_MAX_ATTEMPTS
    ensures SameTable(m, Poll(vendor, m, started, tries).1)
    decreases MATERIALIZATION_MAX_ATTEMPTS - tries
  {
    if Room(m) {
      var e, m' := vendor(m.pos), Requested(vendor, m);
      if e.reply.Received? && e.reply.status == 202 && tries + 1 < MATERIALIZATION_MAX_ATTEMPTS {
        PollLeavesTable(vendor, Waited(m', e.reply.retryAfter), started, tries + 1);
      }
    }
  }

  ghost predicate StepLeavesTable(step: PassStep, p: Pass, i: nat, m: Machine)
    requires StepsInPlace(step, p, i, m)
  {
    i < |p.statuses| == |p.expirations| ==> SameTable(m, step(p, i, m).machine)
  }

  lemma {:induction false} StepsLeaveTable(step: PassStep, p: Pass, i: nat, m: Machine)
    requires i <= |p.statuses| == |p.expirations|
    requires forall q, j, n :: StepsInPlace(step, q, j, n)
    requires forall q, j, n :: StepLeavesTable(step, q, j, n)
    ensures SameTable(m, StepsFrom(step, p, i, m).machine)
    decreases |p.statuses| - i
  {
    assert StepsInPlace(step, p, i, m) && StepLeavesTable(step, p, i, m);
    if i < |p.statuses| {
      var s := step(p, i, m);
      if s.exit == Done { StepsLeaveTable(step, s.pass, i + 1, s.machine); }
    }
  }

  lemma NormalLeavesTable(vendor: Vendor, p: Pass, m: Machine)
    requires |p.statuses| == |p.expirations|
    ensures SameTable(m, NormalFrom(vendor, p, 0, m).machine)
  {
    StepOfInPlace(vendor);
    forall q, j: nat, n
      ensures StepLeavesTable(StepOf(vendor), q, j, n)
    {
      if j < |q.statuses| == |q.expirations| { PollLeavesTable(vendor, n, n.clock, 0); }
    }
    StepsLeaveTable(StepOf(vendor), p, 0, m);
  }

  ghost predicate RetryLeavesTable(retry: RetryStep, p: Pass, k: nat, m: Machine) {
    Retryable(p, k) ==> retry.requires(p, k, m) && SameTable(m, retry(p, k, m).machine)
  }

  lemma {:induction false} RetriesLeaveTable(retry: RetryStep, p: Pass, k: nat, history: seq<Recovery>, m: Machine)
    requires Recovering(p, k)
    requires forall q, j, n :: RetryKeeps(retry, q, j, n)
    requires forall q, j, n :: RetryLeavesTable(retry, q, j, n)
    ensures SameTable(m, RetriesFrom(retry, p, k, history, m).machine)
    decreases |p.deferred| - k
  {
    if k < |p.deferred| {
      if m.recoveryAttempts >= RECOVERY_MAX_ATTEMPTS_PER_RUN {
        SkipDeferred(p, k);
        RetriesLeaveTable(retry, p, k + 1, history, m);
      } else {
        DeferredRetryable(p, k);
        assert RetryKeeps(retry, p, k, m) && RetryLeavesTable(retry, p, k, m);
        var r := retry(p, k, m);
        if r.exit == Done {
          RetriesLeaveTable(retry, r.pass, k + 1, history + [Recovery(p.deferred[k].index, r.outcome)], r.machine);
        }
      }
    }
  }

  lemma RecoveryLeavesTable(vendor: Vendor, p: Pass, vendorDate: Date, m: Machine)
    requires Recovering(p, 0)
    ensures SameTable(m, RecoverFrom(vendor, p, 0, vendorDate, [], m).machine)
  {
    RetryOfKeeps(vendor, vendorDate);
    forall q, j: nat, n
      ensures RetryLeavesTable(RetryOf(vendor, vendorDate), q, j, n)
    {
    }
    RetriesLeaveTable(RetryOf(vendor, vendorDate), p, 0, [], m);
  }

  // ---------------------------------------------------------------- one ticker

  /** The table grew by the contracts that the row counts, all of one vendor date of its ticker. */
  ghost predicate Grew(m: Machine, t: TickerEnd, ticker: Ticker, vendorDate: Date) {
    && m.table <= t.machine.table && t.machine.archived == m.archived
    && |t.machine.table| - |m.table| == (if t.row.Some? then t.row.value.contracts else 0)
    && (forall i :: |m.table| <= i < |t.machine.table| ==>
          t.machine.table[i].ticker == ticker && t.machine.table[i].vendorDate == vendorDate)
    && forall i, j :: |m.table| <= i < j < |t.machine.table| ==> !SameContract(t.machine.table[i], t.machine.table[j])
  }

  lemma KeptGrows(m: Machine, n: Machine, ticker: Ticker, vendorDate: Date, p: Pass, row: TickerRow, exit: Exit)
    requires SameTable(m, n) && UniqueSymbols(p.stored) && row.contracts == |p.stored|
    ensures Grew(m, TickerEnd(Some(row), exit, Kept(n, ticker, vendorDate, p)), ticker, vendorDate)
  {
  }

  /** Both passes over a ticker store each contract once, as many as its row counts. */
  lemma PassesGrow(vendor: Vendor, ticker: Ticker, scoped: seq<Date>, vendorDate: Date, m: Machine)
    requires DistinctExpirations(scoped)
    ensures Grew(m, PassesOver(vendor, ticker, scoped, vendorDate, m), ticker, vendorDate)
  {
    StartIsSound(scoped);
    NormalFromSound(vendor, Start(scoped), 0, m);
    NormalLeavesTable(vendor, Start(scoped), m);
    var n := NormalFrom(vendor, Start(scoped), 0, m);
    var t := PassesOver(vendor, ticker, scoped, vendorDate, m);
    if n.exit == Done {
      RecoverFromSound(vendor, n.pass, 0, vendorDate, [], n.machine);
      RecoveryLeavesTable(vendor, n.pass, vendorDate, n.machine);
      var r := RecoverFrom(vendor, n.pass, 0, vendorDate, [], n.machine);
      KeptGrows(m, r.machine, ticker, vendorDate, r.pass, t.row.value, t.exit);
    } else {
      KeptGrows(m, n.machine, ticker, vendorDate, n.pass, t.row.value, t.exit);
    }
  }

  /** The table stays sound and grows by what the ticker's row counts. */
  ghost predicate TableLaw(m: Machine, t: TickerEnd) {
    && SoundTable(t.machine) && m.table <= t.machine.table && m.archived <= t.machine.archived
    && |t.machine.table| - |m.table| == (if t.row.Some? then t.row.value.contracts else 0)
  }

  lemma GrownIsSound(m: Machine, t: TickerEnd, ticker: Ticker, vendorDate: Date, before: Machine)
    requires SoundTable(before) && m.table == before.table && before.archived <= m.archived
    requires Grew(m, t, ticker, vendorDate) && (ticker, vendorDate) !in before.archived
    requires |t.machine.table| > |m.table| ==> (ticker, vendorDate) in m.archived
    ensures TableLaw(before, t)
  {
    forall i, j | 0 <= i < j < |t.machine.table|
      ensures !SameContract(t.machine.table[i], t.machine.table[j])
    {
      if i < |m.table| {
        assert t.machine.table[i] == m.table[i];
        if j < |m.table| { assert t.machine.table[j] == m.table[j]; }
      }
    }
    forall i | 0 <= i < |t.machine.table|
      ensures (t.machine.table[i].ticker, t.machine.table[i].vendorDate) in t.machine.archived
    {
      if i < |m.table| { assert t.machine.table[i] == m.table[i]; }
    }
  }

  lemma NormalOfNothing(vendor: Vendor, p: Pass, m: Machine)
    requires p.statuses == [] && p.expirations == []
    ensures NormalFrom(vendor, p, 0, m) == PassEnd(p, Done, m)
  {
  }

  lemma RecoveryOfNothing(vendor: Vendor, p: Pass, vendorDate: Date, m: Machine)
    requires Recovering(p, 0) && p.deferred == []
    ensures RecoverFrom(vendor, p, 0, vendorDate, [], m) == RecoveryEnd(p, Done, [], m)
  {
  }

  lemma NothingRecovered(vendor: Vendor, ticker: Ticker, p: Pass, vendorDate: Date, m: Machine)
    requires Recovering(p, 0) && p.deferred == [] && p.stored == []
    ensures RecoveredEnd(vendor, ticker, p, vendorDate, m).machine.table == m.table
  {
    RecoveryOfNothing(vendor, p, vendorDate, m);
  }

  lemma EmptyPasses(vendor: Vendor, ticker: Ticker, vendorDate: Date, m: Machine, scoped: seq<Date>, p: Pass)
    requires DistinctExpirations(scoped) && p == Start(scoped) && NormalFrom(vendor, p, 0, m) == PassEnd(p, Done, m)
    ensures Recovering(p, 0) && PassesOver(vendor, ticker, scoped, vendorDate, m) == RecoveredEnd(vendor, ticker, p, vendorDate, m)
  {
    StartIsSound(scoped);
    NormalFromSound(vendor, p, 0, m);
  }

  lemma NothingScoped(vendor: Vendor, ticker: Ticker, vendorDate: Date, m: Machine)
    ensures PassesOver(vendor, ticker, [], vendorDate, m).machine.table == m.table
  {
    var p := Start([]);
    NormalOfNothing(vendor, p, m);
    EmptyPasses(vendor, ticker, vendorDate, m, [], p);
    NothingRecovered(vendor, ticker, p, vendorDate, m);
  }

  lemma ScopedKeepTable(vendor: Vendor, ticker: Ticker, scoped: seq<Date>, vendorDate: Date, before: Machine, m: Machine)
    requires DistinctExpirations(scoped) && SoundTable(before) && m.table == before.table
    requires m.archived == before.archived + (if scoped == [] then {} else {(ticker, vendorDate)})
    requires (ticker, vendorDate) !in before.archived
    ensures TableLaw(before, PassesOver(vendor, ticker, scoped, vendorDate, m))
  {
    PassesGrow(vendor, ticker, scoped, vendorDate, m);
    if scoped == [] { NothingScoped(vendor, ticker, vendorDate, m); }
    GrownIsSound(m, PassesOver(vendor, ticker, scoped, vendorDate, m), ticker, vendorDate, before);
  }

  /** Whatever the vendor answers, archiving a ticker never stores a contract of a vendor date twice,
      and stores exactly as many as its row counts. */
  lemma TickerKeepsTable(vendor: Vendor, ticker: Ticker, m: Machine)
    requires SoundTable(m)
    ensures TableLaw(m, TickerPass(vendor, ticker, m))
  {
    if Room(m) && vendor(m.pos).reply.Received? && OneVendorDate(vendor(m.pos).reply.surface) {
      var parsed, m1 := vendor(m.pos).reply.surface, Requested(vendor, m);
      var vendorDate := parsed[0].vendorDate;
      var scoped := Scoped(parsed, vendorDate);
      if (ticker, vendorDate) !in m1.archived && !HasRepeats(scoped) {
        ScopedKeepTable(vendor, ticker, scoped, vendorDate, m,
                        if scoped == [] then m1 else m1.(archived := m1.archived + {(ticker, vendorDate)}));
      }
    }
  }

  // ---------------------------------------------------------------- one run

  function Contracts(rows: seq<TickerRow>): nat {
    if rows == [] then 0 else Contracts(rows[..|rows| - 1]) + rows[|rows| - 1].contracts
  }

  lemma {:induction false} ContractsConcat(a: seq<TickerRow>, b: seq<TickerRow>)
    ensures Contracts(a + b) == Contracts(a) + Contracts(b)
  {
    if b == [] {
      assert a + b == a;
    } else {
      ContractsConcat(a, b[..|b| - 1]);
      assert (a + b)[..|a + b| - 1] == a + b[..|b| - 1];
    }
  }

  lemma {:induction false} NoContracts(rows: seq<TickerRow>)
    requires forall i :: 0 <= i < |rows| ==> rows[i].contracts == 0
    ensures Contracts(rows) == 0
  {
    if rows != [] { NoContracts(rows[..|rows| - 1]); }
  }

  ghost predicate KeepsTable(pass: TickerStep, ticker: Ticker, m: Machine) {
    SoundTable(m) ==> TableLaw(m, pass(ticker, m))
  }

  lemma OneMore(rows: seq<TickerRow>, row: TickerRow)
    ensures Contracts(rows + [row]) == Contracts(rows) + row.contracts
  {
    assert (rows + [row])[..|rows|] == rows;
  }

  lemma {:induction false} RunKeepsTable(pass: TickerStep, universe: seq<Ticker>, n: nat, rows: seq<TickerRow>, m: Machine)
    requires n <= |universe| && SoundTable(m) && forall ticker, k :: KeepsTable(pass, ticker, k)
    ensures var r := RunFrom(pass, universe, n, rows, m);
      && SoundTable(r.machine) && m.table <= r.machine.table
      && (r.status != RunFailed ==> |r.machine.table| - |m.table| == Contracts(r.rows) - Contracts(rows))
    decreases |universe| - n
  {
    if n < |universe| {
      assert KeepsTable(pass, universe[n], m);
      var t := pass(universe[n], m);
      match t.exit
      case Done =>
        if t.row.Some? {
          OneMore(rows, t.row.value);
          RunKeepsTable(pass, universe, n + 1, rows + [t.row.value], t.machine);
        }
      case VendorFailed =>
        OneMore(rows, ErrorRow(universe[n], t.row));
        RunKeepsTable(pass, universe, n + 1, rows + [ErrorRow(universe[n], t.row)], t.machine);
      case BudgetExceeded =>
        var current := if t.row.Some? then t.row.value else EmptyRow(universe[n], TickerBudgetNotAttempted);
        var rest := UnattemptedRows(universe[n + 1..]);
        OneMore(rows, current);
        ContractsConcat(rows + [current], rest);
        NoContracts(rest);
      case StorageConflict =>
    }
  }

  /** Every run over any vendor's answers leaves each contract of a vendor date stored once, never
      removes one, and, unless it fails, adds exactly as many as its ticker rows count. */
  lemma EveryRunStoresOnce(vendor: Vendor, universe: seq<Ticker>, m: Machine)
    requires SoundTable(m)
    ensures var r := RunFrom(PassOf(vendor), universe, 0, [], m);
      && SoundTable(r.machine) && m.table <= r.machine.table
      && (r.status != RunFailed ==> |r.machine.table| - |m.table| == Contracts(r.rows))
  {
    forall ticker, k
      ensures KeepsTable(PassOf(vendor), ticker, k)
    {
      if SoundTable(k) { TickerKeepsTable(vendor, ticker, k); }
    }
    RunKeepsTable(PassOf(vendor), universe, 0, [], m);
  }
}
