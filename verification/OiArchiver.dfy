/** The daily OI archiver: a normal pass, a deferred recovery pass, two budgets and a recovery cap. */
module OiArchiver {
  import opened Prelude
  import opened TradingCalendar
  import opened ChainParser
  import opened ArchivePass
  import opened ArchiveProtocol

  class ArchiveBudget {
    var consumed: nat
    var attempts: nat

    constructor ()
      ensures consumed == 0 && attempts == 0
    {
      consumed, attempts := 0, 0;
    }

    predicate HasRoom()
      reads this
    {
      consumed < MAX_CONSUMED_UNITS && attempts < MAX_NETWORK_ATTEMPTS
    }

    method Observe(e: VendorEvent)
      modifies this
      ensures attempts == old(attempts) + e.attempts
      ensures consumed == old(consumed) + (if e.consumed then 1 else 0)
    {
      attempts := attempts + e.attempts;
      if e.consumed { consumed := consumed + 1; }
    }
  }

  class DailyOiArchiver {
    const vendor: Vendor
    const maxRetries: nat
    const budget: ArchiveBudget
    var pos: nat                 // requests made so far
    var clock: real              // perf_counter
    var recoveryAttempts: nat
    var recoveredChains: nat
    var budgetLimited: bool
    var archived: set<(Ticker, Date)>  // vendor dates with stored snapshots
    var table: seq<StoredContract>

    ghost predicate Valid()
      reads this, budget
    {
      && FairVendor(vendor, maxRetries)
      && budget.consumed <= MAX_CONSUMED_UNITS
      && budget.attempts <= MAX_NETWORK_ATTEMPTS + maxRetries
      && recoveryAttempts <= RECOVERY_MAX_ATTEMPTS_PER_RUN
      && recoveredChains <= recoveryAttempts
    }

    /** The archiver's state as the protocol functions see it. */
    ghost function Now(): Machine
      reads this, budget
    {
      Machine(pos, clock, budget.consumed, budget.attempts, recoveryAttempts, recoveredChains, archived, table)
    }

    constructor (vendor: Vendor, maxRetries: nat, archived: set<(Ticker, Date)>, table: seq<StoredContract>)
      requires FairVendor(vendor, maxRetries)
      ensures Valid() && fresh(budget) && this.vendor == vendor && this.maxRetries == maxRetries
      ensures pos == 0 && recoveryAttempts == 0 && recoveredChains == 0 && !budgetLimited
      ensures this.archived == archived && this.table == table
    {
      this.vendor, this.maxRetries, this.archived, this.table := vendor, maxRetries, archived, table;
      budget := new ArchiveBudget();
      pos, clock, recoveryAttempts, recoveredChains, budgetLimited := 0, 0.0, 0, 0, false;
    }

    /** One budgeted request; None when the budget has no room. */
    method Fetch() returns (e: Option<VendorEvent>)
      requires Valid()
      modifies this`pos, this`clock, budget
      ensures Valid()
      ensures e.None? <==> !old(budget.HasRoom())
      ensures e.None? ==> pos == old(pos) && clock == old(clock) && unchanged(budget)
      ensures e.Some? ==>
        && e.value == vendor(old(pos)) && pos == old(pos) + 1 && clock == old(clock) + e.value.latency
        && budget.attempts == old(budget.attempts) + e.value.attempts
        && budget.consumed == old(budget.consumed) + (if e.value.consumed then 1 else 0)
        && Now() == Requested(vendor, old(Now()))
    {
      if !budget.HasRoom() {
        return None;
      }
      var event := vendor(pos);
      budget.Observe(event);
      pos, clock := pos + 1, clock + event.latency;
      e := Some(event);
    }

    method Wait(seconds: real)
      requires Valid() && seconds >= 0.0
      modifies this`clock
      ensures Valid() && clock == old(clock) + seconds
    {
      clock := clock + seconds;
    }

    /** One request of the poll: its outcome, or None after the pause before the next one. */
    method PollOnce(started: real, tries: nat) returns (done: Option<FetchOutcome>, delay: real, asked: nat)
      requires Valid() && tries < MATERIALIZATION_MAX_ATTEMPTS
      modifies this`pos, this`clock, budget
      ensures Valid() && asked <= 1 && pos == old(pos) + asked && clock >= old(clock) + delay && delay >= 0.0
      ensures done.None? ==> asked == 1 && tries + 1 < MATERIALIZATION_MAX_ATTEMPTS && clock - started <= MATERIALIZATION_MAX_WAIT
      ensures done.Some? ==> delay == 0.0 && (done.value.VendorRefused? ==> done.value.pause >= 0.0)
      ensures Poll(vendor, old(Now()), started, tries)
           == if done.Some? then (done.value, Now()) else Poll(vendor, Now(), started, tries + 1)
    {
      delay := 0.0;
      var e := Fetch();
      if e.None? {
        return Some(NoRoom), delay, 0;
      }
      asked := 1;
      match e.value.reply {
        case Refused(status, pause) =>
          assert DelayOf(e.value) == pause;
          done := Some(VendorRefused(status, pause, e.value.today));
        case Received(status, payload, _, retryAfter) =>
          assert DelayOf(e.value) == retryAfter;
          if status != 202 {
            done := Some(ChainReceived(payload));
          } else if tries + 1 >= MATERIALIZATION_MAX_ATTEMPTS || clock - started + retryAfter > MATERIALIZATION_MAX_WAIT {
            done := Some(TimedOut);
          } else {
            done, delay := None, retryAfter;
            Wait(delay);
          }
      }
    }

    /** Polls a chain that the vendor is still materializing (202). It makes at most three
        requests and never waits more than thirty seconds in total. */
    method FetchMaterializedChain() returns (r: FetchOutcome, attempts: nat, waited: real)
      requires Valid()
      modifies this`pos, this`clock, budget
      ensures Valid()
      ensures (r, Now()) == Poll(vendor, old(Now()), old(clock), 0)
      ensures pos == old(pos) + attempts && attempts <= MATERIALIZATION_MAX_ATTEMPTS
      ensures 0.0 <= waited <= MATERIALIZATION_MAX_WAIT
      ensures r.VendorRefused? ==> r.pause >= 0.0
    {
      var started := clock;
      attempts, waited := 0, 0.0;
      ghost var whole := Poll(vendor, Now(), started, 0);
      while true
        invariant Valid() && attempts < MATERIALIZATION_MAX_ATTEMPTS && pos == old(pos) + attempts
        invariant 0.0 <= waited <= MATERIALIZATION_MAX_WAIT && waited <= clock - started
        invariant Poll(vendor, Now(), started, attempts) == whole
        decreases MATERIALIZATION_MAX_ATTEMPTS - attempts
      {
        var done, delay, asked := PollOnce(started, attempts);
        attempts := attempts + asked;
        waited := waited + delay;
        if done.Some? {
          return done.value, attempts, waited;
        }
      }
    }

    /** One expiry of the normal pass. */
    method ArchiveExpiry(p: Pass, i: nat) returns (q: Pass, exit: Exit)
      requires Valid() && i < |p.statuses| == |p.expirations|
      modifies this`pos, this`clock, budget
      ensures Valid() && PassEnd(q, exit, Now()) == NormalStep(vendor, p, i, old(Now()))
    {
      var r, attempts, waited := FetchMaterializedChain();
      match r {
        case NoRoom =>
          return p.(statuses := Omit(p.statuses, i)), BudgetExceeded;
        case VendorRefused(status, pause, today) =>
          if status == Some(429) { Wait(pause); }
          var after := AfterRefusal(p, i, status, today, clock);
          return if after.None? then p else after.value, if after.None? then VendorFailed else Done;
        case TimedOut =>
          return AfterTimeout(p, i), Done;
        case ChainReceived(payload) =>
          var chain := ParseCompleteChain(payload, p.expirations[i]);
          CountsDoNotMatter(p, i, chain, Parse(payload, p.expirations[i]), clock);
          var after := AfterChain(p, i, chain, clock);
          return if after.None? then p else after.value, if after.None? then StorageConflict else Done;
      }
    }

    /** The normal pass over a ticker's expiries. */
    method NormalPass(expirations: seq<Date>) returns (p: Pass, exit: Exit)
      requires Valid()
      modifies this`pos, this`clock, budget
      ensures Valid() && PassEnd(p, exit, Now()) == NormalFrom(vendor, Start(expirations), 0, old(Now()))
    {
      p := Start(expirations);
      ghost var step := StepOf(vendor);
      StepOfInPlace(vendor);
      for i := 0 to |expirations|
        invariant Valid() && |p.statuses| == |p.expirations| == |expirations|
        invariant StepsFrom(step, p, i, Now()) == StepsFrom(step, Start(expirations), 0, old(Now()))
      {
        assert StepsInPlace(step, p, i, Now());
        p, exit := ArchiveExpiry(p, i);
        if exit != Done {
          return;
        }
      }
      exit := Done;
    }

    /** What the reply to a retry decides. */
    static method DecideRetry(p: Pass, k: nat, reply: Reply, vendorDate: Date) returns (r: Option<(Pass, RecoveryOutcome)>)
      requires Retryable(p, k)
      ensures r == RetryDecision(p, k, reply, vendorDate)
    {
      var expiration := p.expirations[p.deferred[k].index];
      var payload := if reply.Received? then reply.payload else ChainPayload(None, None);
      var chain := ParseCompleteChain(payload, expiration);
      RetryIgnoresCounts(p, k, reply, chain, Parse(payload, expiration), vendorDate);
      r := AfterRetry(p, k, reply, chain, vendorDate);
    }

    /** Waits until a retry's time, counts it and sends its request. */
    method StartRetry(notBefore: real) returns (e: Option<VendorEvent>)
      requires Valid() && recoveryAttempts < RECOVERY_MAX_ATTEMPTS_PER_RUN
      modifies this`pos, this`clock, this`recoveryAttempts, budget
      ensures Valid() && recoveryAttempts == old(recoveryAttempts) + 1 && recoveredChains < recoveryAttempts
      ensures var m := RetryStart(old(Now()), notBefore);
        && (e.None? <==> !Room(m))
        && Now() == (if e.None? then m else Requested(vendor, m)) && (e.Some? ==> e.value == vendor(m.pos))
    {
      if clock < notBefore {
        Wait(notBefore - clock);
      }
      recoveryAttempts := recoveryAttempts + 1;
      e := Fetch();
    }

    /** Retries deferred entry `k` once. */
    method Retry(p: Pass, k: nat, vendorDate: Date) returns (q: Pass, exit: Exit, outcome: RecoveryOutcome)
      requires Valid() && Retryable(p, k)
      requires recoveryAttempts < RECOVERY_MAX_ATTEMPTS_PER_RUN
      modifies this`pos, this`clock, this`recoveryAttempts, this`recoveredChains, budget
      ensures Valid() && recoveryAttempts == old(recoveryAttempts) + 1
      ensures RetryEnd(q, exit, outcome, Now()) == RetryOf(vendor, vendorDate)(p, k, old(Now()))
    {
      q, exit, outcome := p, BudgetExceeded, RefusedAgain;
      var e := StartRetry(p.deferred[k].notBefore);
      if e.None? {
        return;
      }
      var r := DecideRetry(p, k, e.value.reply, vendorDate);
      if r.None? {
        exit := StorageConflict;
        return;
      }
      q, outcome, exit := r.value.0, r.value.1, Done;
      if outcome.Recovered? { recoveredChains := recoveredChains + 1; }
    }

    /** The deferred recovery pass; past the run-level cap entries are left as they are. */
    method RecoveryPass(p0: Pass, vendorDate: Date) returns (p: Pass, exit: Exit, history: seq<Recovery>)
      requires Valid() && Recovering(p0, 0)
      modifies this`pos, this`clock, this`recoveryAttempts, this`recoveredChains, budget
      ensures Valid() && RecoveryEnd(p, exit, history, Now()) == RecoverFrom(vendor, p0, 0, vendorDate, [], old(Now()))
    {
      p, history := p0, [];
      ghost var retry := RetryOf(vendor, vendorDate);
      RetryOfKeeps(vendor, vendorDate);
      for k := 0 to |p0.deferred|
        invariant Valid() && Recovering(p, k) && p.deferred == p0.deferred
        invariant RetriesFrom(retry, p, k, history, Now()) == RetriesFrom(retry, p0, 0, [], old(Now()))
      {
        if recoveryAttempts < RECOVERY_MAX_ATTEMPTS_PER_RUN {
          DeferredRetryable(p, k);
          assert RetryKeeps(retry, p, k, Now());
          var q, stop, outcome := Retry(p, k, vendorDate);
          if stop != Done {
            return p, stop, history;
          }
          p, history := q, history + [Recovery(p.deferred[k].index, outcome)];
        } else {
          SkipDeferred(p, k);
        }
      }
      exit := Done;
    }

    /** Both passes over the scoped expiries of one ticker, and the final accounting. */
    method ArchiveScoped(ticker: Ticker, scoped: seq<Date>, vendorDate: Date) returns (row: TickerRow, exit: Exit)
      requires Valid() && DistinctExpirations(scoped)
      modifies this`pos, this`clock, this`recoveryAttempts, this`recoveredChains, this`table, budget
      ensures Valid() && TickerEnd(Some(row), exit, Now()) == PassesOver(vendor, ticker, scoped, vendorDate, old(Now()))
    {
      StartIsSound(scoped);
      NormalFromSound(vendor, Start(scoped), 0, Now());
      var p;
      p, exit := NormalPass(scoped);
      if exit == BudgetExceeded {
        row := RowOf(ticker, PartialArchiveBudgetLimit, p, None);
      } else if exit != Done {
        row := RowOf(ticker, Running, p, None);
      } else {
        RecoverFromSound(vendor, p, 0, vendorDate, [], Now());
        var history;
        p, exit, history := RecoveryPass(p, vendorDate);
        ActiveAreUnavailable(p.unavailable);
        row := if exit == Done then CompletedRow(ticker, p, history) else RowOf(ticker, Running, p, None);
      }
      table := table + TableRows(ticker, vendorDate, p.stored);
    }

    /** One ticker: surface check, both passes, accounting. `row` is the ticker row as last
        committed, None when none was created. */
    method ArchiveTicker(ticker: Ticker) returns (row: Option<TickerRow>, exit: Exit)
      requires Valid()
      modifies this`pos, this`clock, this`recoveryAttempts, this`recoveredChains, this`archived, this`table, budget
      ensures Valid() && old(archived) <= archived
      ensures TickerEnd(row, exit, Now()) == PassOf(vendor)(ticker, old(Now()))
    {
      row := None;
      var e := Fetch();
      if e.None? {
        exit := BudgetExceeded;
        return;
      }
      if e.value.reply.Refused? {
        exit := VendorFailed;
        return;
      }
      var parsed := e.value.reply.surface;
      if !OneVendorDate(parsed) {
        return Some(EmptyRow(ticker, InvalidOiSurface)), Done;
      }
      var vendorDate := parsed[0].vendorDate;
      if (ticker, vendorDate) in archived {
        return Some(EmptyRow(ticker, NoNewVendorOiSnapshot)), Done;
      }
      var scoped := Scoped(parsed, vendorDate);
      if HasRepeats(scoped) {
        exit := StorageConflict;
        return;
      }
      if scoped != [] { archived := archived + {(ticker, vendorDate)}; }
      var last;
      last, exit := ArchiveScoped(ticker, scoped, vendorDate);
      row := Some(last);
    }

    /** One run over the universe. Every ticker ends with exactly one row that obeys its
        conservation law, unless a storage conflict fails the run. */
    method Execute(universe: seq<Ticker>) returns (status: RunStatus, rows: seq<TickerRow>)
      requires Valid() && !budgetLimited
      modifies this`pos, this`clock, this`recoveryAttempts, this`recoveredChains, this`archived, this`table
      modifies this`budgetLimited, budget
      ensures Valid() && old(archived) <= archived
      ensures RunEnd(status, rows, budgetLimited, Now()) == RunFrom(PassOf(vendor), universe, 0, [], old(Now()))
    {
      rows := [];
      for n := 0 to |universe|
        invariant Valid() && old(archived) <= archived && !budgetLimited
        invariant RunFrom(PassOf(vendor), universe, n, rows, Now()) == RunFrom(PassOf(vendor), universe, 0, [], old(Now()))
      {
        var row, exit := ArchiveTicker(universe[n]);
        match exit {
          case Done =>
            if row.None? {
              return RunFailed, rows;
            }
            rows := rows + [row.value];
          case VendorFailed =>
            rows := rows + [ErrorRow(universe[n], row)];
          case BudgetExceeded =>
            budgetLimited := true;
            var current := if row.Some? then row.value else EmptyRow(universe[n], TickerBudgetNotAttempted);
            rows := rows + [current] + UnattemptedRows(universe[n + 1..]);
            status := FinishStatus(true, rows);
            return;
          case StorageConflict =>
            return RunFailed, rows;
        }
      }
      status := FinishStatus(false, rows);
    }
  }
}
