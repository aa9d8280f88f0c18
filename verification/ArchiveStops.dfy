/** When a budget stops the archiving of a ticker, and which status its row is left with. */
module ArchiveStops {
  import opened Prelude
  import opened TradingCalendar
  import opened ChainParser
  import opened ArchivePass
  import opened ArchiveProtocol
  import opened ArchiveLaws

  // ---------------------------------------------------------------- what the vendor's answers decide

  /** There is budget left after the next `j` answers from position `pos`. */
  predicate RoomAfter(vendor: Vendor, pos: nat, consumed: nat, attempts: nat, j: nat)
    decreases j
  {
    if j == 0 then consumed < MAX_CONSUMED_UNITS && attempts < MAX_NETWORK_ATTEMPTS
    else RoomAfter(vendor, pos + 1, consumed + (if vendor(pos).consumed then 1 else 0), attempts + vendor(pos).attempts, j - 1)
  }

  function StoredSymbolSet(p: Pass): set<int> { set r | r in p.stored :: r.symbol }

  function SymbolSet(contracts: seq<Contract>): set<int> { set c | c in contracts :: c.symbol }

  /** The symbols that a retry of deferred entry `k` stores on the vendor's answer at `pos`. */
  function Offered(vendor: Vendor, p: Pass, vendorDate: Date, k: nat, pos: nat): set<int> {
    var reply := vendor(pos).reply;
    if reply.Refused? || k >= |p.deferred| || p.deferred[k].index >= |p.expirations| then {}
    else
      var chain := Parse(reply.payload, p.expirations[p.deferred[k].index]);
      if chain.Complete() && VendorDateMatches(chain, vendorDate) then SymbolSet(chain.contracts) else {}
  }

  /** None of the next `j` answers offers a symbol that is held by then. */
  predicate NoConflict(vendor: Vendor, p: Pass, vendorDate: Date, k: nat, pos: nat, held: set<int>, j: nat)
    decreases j
  {
    j == 0 ||
    (Offered(vendor, p, vendorDate, k, pos) !! held
     && NoConflict(vendor, p, vendorDate, k + 1, pos + 1, held + Offered(vendor, p, vendorDate, k, pos), j - 1))
  }

  /** Deferred entry `k + j` is reached below the run-level cap, and then there is no budget left. */
  predicate StarvesAt(vendor: Vendor, p: Pass, vendorDate: Date, k: nat, m: Machine, held: set<int>, j: nat) {
    && k + j < |p.deferred| && m.recoveryAttempts + j < RECOVERY_MAX_ATTEMPTS_PER_RUN
    && !RoomAfter(vendor, m.pos, m.consumed, m.attempts, j)
    && NoConflict(vendor, p, vendorDate, k, m.pos, held, j)
  }

  ghost predicate Starves(vendor: Vendor, p: Pass, vendorDate: Date, k: nat, m: Machine, held: set<int>) {
    exists j: nat :: StarvesAt(vendor, p, vendorDate, k, m, held, j)
  }

  /** `n` is `m` after one more retry, as far as budgets go. */
  predicate OneRetryLater(vendor: Vendor, m: Machine, n: Machine) {
    && n.pos == m.pos + 1 && n.recoveryAttempts == m.recoveryAttempts + 1
    && n.consumed == m.consumed + (if vendor(m.pos).consumed then 1 else 0)
    && n.attempts == m.attempts + vendor(m.pos).attempts
  }

  lemma StarvesUnrolls(vendor: Vendor, p: Pass, vendorDate: Date, k: nat, m: Machine, held: set<int>, n: Machine)
    requires OneRetryLater(vendor, m, n)
    ensures Starves(vendor, p, vendorDate, k, m, held) <==>
      && k < |p.deferred| && m.recoveryAttempts < RECOVERY_MAX_ATTEMPTS_PER_RUN
      && (!Room(m) ||
          (Offered(vendor, p, vendorDate, k, m.pos) !! held
           && Starves(vendor, p, vendorDate, k + 1, n, held + Offered(vendor, p, vendorDate, k, m.pos))))
  {
    var offered := Offered(vendor, p, vendorDate, k, m.pos);
    if j: nat :| StarvesAt(vendor, p, vendorDate, k, m, held, j) {
      if j > 0 { assert StarvesAt(vendor, p, vendorDate, k + 1, n, held + offered, j - 1); }
    }
    if k < |p.deferred| && m.recoveryAttempts < RECOVERY_MAX_ATTEMPTS_PER_RUN {
      if !Room(m) { assert StarvesAt(vendor, p, vendorDate, k, m, held, 0); }
      if offered !! held && Starves(vendor, p, vendorDate, k + 1, n, held + offered) {
        var j: nat :| StarvesAt(vendor, p, vendorDate, k + 1, n, held + offered, j);
        assert StarvesAt(vendor, p, vendorDate, k, m, held, j + 1);
      }
    }
  }

  // ---------------------------------------------------------------- one retry

  lemma ClashIffShared(p: Pass, contracts: seq<Contract>)
    ensures SymbolClash(p.stored, contracts) <==> !(SymbolSet(contracts) !! StoredSymbolSet(p))
  {
    if j, k :| 0 <= j < |p.stored| && 0 <= k < |contracts| && p.stored[j].symbol == contracts[k].symbol {
      assert contracts[k] in contracts && p.stored[j] in p.stored;
      assert contracts[k].symbol in SymbolSet(contracts) && p.stored[j].symbol in StoredSymbolSet(p);
    }
    if s :| s in SymbolSet(contracts) && s in StoredSymbolSet(p) {
      var c :| c in contracts && c.symbol == s;
      var r :| r in p.stored && r.symbol == s;
      var k :| 0 <= k < |contracts| && contracts[k] == c;
      var j :| 0 <= j < |p.stored| && p.stored[j] == r;
      assert p.stored[j].symbol == contracts[k].symbol;
    }
  }

  lemma StoreAddsSymbols(p: Pass, i: nat, chain: CompleteChain)
    requires i < |p.statuses| == |p.expirations|
    ensures StoredSymbolSet(Store(p, i, chain)) == StoredSymbolSet(p) + SymbolSet(chain.contracts)
  {
    var rows := RowsFor(p.expirations[i], chain.contracts);
    forall c | c in chain.contracts
      ensures ContractRow(p.expirations[i], c.symbol) in rows
    {
      var k :| 0 <= k < |chain.contracts| && chain.contracts[k] == c;
      assert rows[k] == ContractRow(p.expirations[i], c.symbol);
    }
    assert forall s :: s in SymbolSet(chain.contracts) ==> ContractRow(p.expirations[i], s) in rows;
    var q := Store(p, i, chain);
    assert forall r :: r in q.stored <==> r in p.stored || r in rows;
    forall s
      ensures s in StoredSymbolSet(q) <==> s in StoredSymbolSet(p) || s in SymbolSet(chain.contracts)
    {
      if s in SymbolSet(chain.contracts) { assert ContractRow(p.expirations[i], s) in q.stored; }
    }
  }

  /** What a retry does, in terms of budget, answer and symbols. */
  ghost predicate RetryTells(retry: RetryStep, vendor: Vendor, vendorDate: Date, p: Pass, k: nat, m: Machine) {
    Retryable(p, k) ==>
      retry.requires(p, k, m)
      && var r := retry(p, k, m);
      && (r.exit == BudgetExceeded <==> !Room(m))
      && (Room(m) ==> (r.exit == Done <==> Offered(vendor, p, vendorDate, k, m.pos) !! StoredSymbolSet(p)))
      && (r.exit == Done ==> OneRetryLater(vendor, m, r.machine))
      && (r.exit == Done ==> StoredSymbolSet(r.pass) == StoredSymbolSet(p) + Offered(vendor, p, vendorDate, k, m.pos))
  }

  lemma DecisionTells(vendor: Vendor, p: Pass, k: nat, vendorDate: Date, pos: nat)
    requires Retryable(p, k)
    ensures var decided := RetryDecision(p, k, vendor(pos).reply, vendorDate);
      && (decided.Some? <==> Offered(vendor, p, vendorDate, k, pos) !! StoredSymbolSet(p))
      && (decided.Some? ==> StoredSymbolSet(decided.value.0) == StoredSymbolSet(p) + Offered(vendor, p, vendorDate, k, pos))
  {
    var reply, i := vendor(pos).reply, p.deferred[k].index;
    if reply.Received? {
      var chain := Parse(reply.payload, p.expirations[i]);
      ClashIffShared(p, chain.contracts);
      StoreAddsSymbols(p, i, chain);
    }
  }

  lemma RetryOfTells(vendor: Vendor, vendorDate: Date)
    ensures forall q, j, n :: RetryTells(RetryOf(vendor, vendorDate), vendor, vendorDate, q, j, n)
  {
    forall q, j: nat, n
      ensures RetryTells(RetryOf(vendor, vendorDate), vendor, vendorDate, q, j, n)
    {
      if Retryable(q, j) { DecisionTells(vendor, q, j, vendorDate, n.pos); }
    }
  }

  // ---------------------------------------------------------------- the recovery pass

  lemma {:induction false} RetriesStopIff(
      retry: RetryStep, vendor: Vendor, vendorDate: Date, base: Pass, p: Pass, k: nat, history: seq<Recovery>, m: Machine)
    requires Recovering(p, k) && p.deferred == base.deferred && p.expirations == base.expirations
    requires forall q, j, n :: RetryKeeps(retry, q, j, n)
    requires forall q, j, n :: RetryTells(retry, vendor, vendorDate, q, j, n)
    ensures RetriesFrom(retry, p, k, history, m).exit == BudgetExceeded
      <==> Starves(vendor, base, vendorDate, k, m, StoredSymbolSet(p))
    decreases |p.deferred| - k
  {
    var later := RetryStart(Requested(vendor, m), 0.0);
    StarvesUnrolls(vendor, base, vendorDate, k, m, StoredSymbolSet(p), later);
    if k < |p.deferred| {
      if m.recoveryAttempts >= RECOVERY_MAX_ATTEMPTS_PER_RUN {
        SkipDeferred(p, k);
        StarvesUnrolls(vendor, base, vendorDate, k + 1, m, StoredSymbolSet(p), later);
        RetriesStopIff(retry, vendor, vendorDate, base, p, k + 1, history, m);
      } else {
        DeferredRetryable(p, k);
        assert RetryKeeps(retry, p, k, m) && RetryTells(retry, vendor, vendorDate, p, k, m);
        assert Offered(vendor, p, vendorDate, k, m.pos) == Offered(vendor, base, vendorDate, k, m.pos);
        var r := retry(p, k, m);
        if r.exit == Done {
          StarvesUnrolls(vendor, base, vendorDate, k, m, StoredSymbolSet(p), r.machine);
          RetriesStopIff(retry, vendor, vendorDate, base, r.pass, k + 1, history + [Recovery(p.deferred[k].index, r.outcome)], r.machine);
        }
      }
    }
  }

  lemma RecoveryStopsIff(vendor: Vendor, p: Pass, vendorDate: Date, m: Machine)
    requires Recovering(p, 0)
    ensures RecoverFrom(vendor, p, 0, vendorDate, [], m).exit == BudgetExceeded
      <==> Starves(vendor, p, vendorDate, 0, m, StoredSymbolSet(p))
  {
    RetryOfKeeps(vendor, vendorDate);
    RetryOfTells(vendor, vendorDate);
    RetriesStopIff(RetryOf(vendor, vendorDate), vendor, vendorDate, p, p, 0, [], m);
  }

  /** A budget stop leaves the row PARTIAL_ARCHIVE_BUDGET_LIMIT exactly when it hits the normal pass,
      and RUNNING exactly when the normal pass ends and the recovery reaches a deferred expiry, below
      the run-level cap and before any storage conflict, without budget for its request. */
  lemma BudgetStopLeaves(vendor: Vendor, ticker: Ticker, scoped: seq<Date>, vendorDate: Date, m: Machine)
    requires DistinctExpirations(scoped)
    ensures var t, n := PassesOver(vendor, ticker, scoped, vendorDate, m), NormalFrom(vendor, Start(scoped), 0, m);
      && t.row.Some?
      && (t.exit == BudgetExceeded && t.row.value.status == PartialArchiveBudgetLimit <==> n.exit == BudgetExceeded)
      && (t.exit == BudgetExceeded && t.row.value.status == Running
          <==> n.exit == Done && Starves(vendor, n.pass, vendorDate, 0, n.machine, StoredSymbolSet(n.pass)))
  {
    StartIsSound(scoped);
    NormalFromSound(vendor, Start(scoped), 0, m);
    var n := NormalFrom(vendor, Start(scoped), 0, m);
    if n.exit == Done { RecoveryStopsIff(vendor, n.pass, vendorDate, n.machine); }
  }

  // ---------------------------------------------------------------- a run that ends with a RUNNING row

  const SLOW := 116

  /** One more expiry than `SLOW`, all in scope of vendor date 0. */
  function SlowSurface(): seq<DailyExpiryOi> { seq(SLOW + 1, i requires 0 <= i <= SLOW => DailyExpiryOi(i, 0)) }

  function SlowDates(): seq<Date> { seq(SLOW + 1, i requires 0 <= i <= SLOW => i) }

  /** A client without retries: the surface, three times "still materializing" for each of the first
      116 expiries, and a rate limit for the last. */
  function SlowVendor(): Vendor {
    (n: nat) =>
      VendorEvent(
        if n == 0 then Received(200, ChainPayload(None, None), SlowSurface(), 0.0)
        else if n <= 3 * SLOW then Received(202, ChainPayload(None, None), [], 0.0)
        else Refused(Some(429), 0.0),
        1, false, 0.0, 0)
  }

  /** The machine after `n` requests of the slow vendor. */
  function SlowMachine(n: nat, archived: set<(Ticker, Date)>): Machine { Machine(n, 0.0, 0, n, 0, 0, archived, []) }

  lemma SlowStep(p: Pass, i: nat, archived: set<(Ticker, Date)>)
    requires i < SLOW && i < |p.statuses| == |p.expirations|
    ensures NormalStep(SlowVendor(), p, i, SlowMachine(1 + 3 * i, archived))
         == PassEnd(AfterTimeout(p, i), Done, SlowMachine(4 + 3 * i, archived))
  {
    var v := SlowVendor();
    var a, b, c := SlowMachine(1 + 3 * i, archived), SlowMachine(2 + 3 * i, archived), SlowMachine(3 + 3 * i, archived);
    assert Poll(v, c, 0.0, 2) == (TimedOut, SlowMachine(4 + 3 * i, archived));
    assert Poll(v, b, 0.0, 1) == Poll(v, c, 0.0, 2);
    assert Poll(v, a, 0.0, 0) == Poll(v, b, 0.0, 1);
  }

  lemma LastStep(p: Pass, archived: set<(Ticker, Date)>)
    requires SLOW < |p.statuses| == |p.expirations|
    ensures NormalStep(SlowVendor(), p, SLOW, SlowMachine(1 + 3 * SLOW, archived))
         == PassEnd(Defer(Trouble(p, SLOW, TransientRateLimit), SLOW, 0.0), Done, SlowMachine(2 + 3 * SLOW, archived))
  {
    var v, m := SlowVendor(), SlowMachine(1 + 3 * SLOW, archived);
    assert Poll(v, m, 0.0, 0) == (VendorRefused(Some(429), 0.0, 0), SlowMachine(2 + 3 * SLOW, archived));
  }

  ghost predicate TimesOut(step: PassStep, p: Pass, i: nat, archived: set<(Ticker, Date)>)
    requires StepsInPlace(step, p, i, SlowMachine(1 + 3 * i, archived))
  {
    i < SLOW && i < |p.statuses| == |p.expirations| ==>
      step(p, i, SlowMachine(1 + 3 * i, archived)) == PassEnd(AfterTimeout(p, i), Done, SlowMachine(4 + 3 * i, archived))
  }

  ghost predicate Defers(step: PassStep, p: Pass, archived: set<(Ticker, Date)>)
    requires StepsInPlace(step, p, SLOW, SlowMachine(1 + 3 * SLOW, archived))
  {
    SLOW < |p.statuses| == |p.expirations| ==>
      step(p, SLOW, SlowMachine(1 + 3 * SLOW, archived))
      == PassEnd(Defer(Trouble(p, SLOW, TransientRateLimit), SLOW, 0.0), Done, SlowMachine(2 + 3 * SLOW, archived))
  }

  lemma {:induction false} SlowSteps(step: PassStep, p: Pass, i: nat, archived: set<(Ticker, Date)>)
    requires i <= SLOW && |p.statuses| == |p.expirations| == SLOW + 1
    requires forall q, j, n :: StepsInPlace(step, q, j, n)
    requires forall q, j: nat :: TimesOut(step, q, j, archived)
    requires forall q :: Defers(step, q, archived)
    ensures var r := StepsFrom(step, p, i, SlowMachine(1 + 3 * i, archived));
      r.exit == Done && r.machine == SlowMachine(2 + 3 * SLOW, archived) && |r.pass.deferred| == |p.deferred| + 1
    decreases SLOW - i
  {
    if i < SLOW {
      assert TimesOut(step, p, i, archived);
      SlowSteps(step, AfterTimeout(p, i), i + 1, archived);
    } else {
      assert Defers(step, p, archived);
    }
  }

  /** The normal pass of the slow vendor uses up the 350 attempts and defers one expiry. */
  lemma SlowPass(archived: set<(Ticker, Date)>)
    ensures var n := NormalFrom(SlowVendor(), Start(SlowDates()), 0, SlowMachine(1, archived));
      n.exit == Done && n.machine == SlowMachine(2 + 3 * SLOW, archived) && |n.pass.deferred| == 1
  {
    var step := StepOf(SlowVendor());
    StepOfInPlace(SlowVendor());
    forall q, j: nat
      ensures TimesOut(step, q, j, archived)
    {
      if j < SLOW && j < |q.statuses| == |q.expirations| { SlowStep(q, j, archived); }
    }
    forall q
      ensures Defers(step, q, archived)
    {
      if SLOW < |q.statuses| == |q.expirations| { LastStep(q, archived); }
    }
    SlowSteps(step, Start(SlowDates()), 0, archived);
  }

  lemma {:induction false} ScopedAll(parsed: seq<DailyExpiryOi>, vendorDate: Date)
    requires forall i :: 0 <= i < |parsed| ==> 0 <= parsed[i].expiration - vendorDate <= MAX_DTE
    ensures Scoped(parsed, vendorDate) == seq(|parsed|, i requires 0 <= i < |parsed| => parsed[i].expiration)
  {
    if parsed != [] { ScopedAll(parsed[..|parsed| - 1], vendorDate); }
  }

  /** In particular: a normal pass that ends with the budget used up and an expiry deferred. */
  lemma SpentBeforeRecovery(vendor: Vendor, ticker: Ticker, scoped: seq<Date>, vendorDate: Date, m: Machine)
    requires DistinctExpirations(scoped) && NormalFrom(vendor, Start(scoped), 0, m).exit == Done
    requires var n := NormalFrom(vendor, Start(scoped), 0, m);
      n.pass.deferred != [] && n.machine.recoveryAttempts < RECOVERY_MAX_ATTEMPTS_PER_RUN && !Room(n.machine)
    ensures var t := PassesOver(vendor, ticker, scoped, vendorDate, m);
      t.exit == BudgetExceeded && t.row.Some? && t.row.value.status == Running
  {
    BudgetStopLeaves(vendor, ticker, scoped, vendorDate, m);
    var n := NormalFrom(vendor, Start(scoped), 0, m);
    assert StarvesAt(vendor, n.pass, vendorDate, 0, n.machine, StoredSymbolSet(n.pass), 0);
  }

  lemma PassesRun(vendor: Vendor, ticker: Ticker, m: Machine, scoped: seq<Date>, vendorDate: Date)
    requires Room(m) && vendor(m.pos).reply.Received? && OneVendorDate(vendor(m.pos).reply.surface)
    requires vendorDate == vendor(m.pos).reply.surface[0].vendorDate && (ticker, vendorDate) !in m.archived
    requires scoped == Scoped(vendor(m.pos).reply.surface, vendorDate) && scoped != [] && !HasRepeats(scoped)
    ensures DistinctExpirations(scoped)
    ensures TickerPass(vendor, ticker, m)
         == PassesOver(vendor, ticker, scoped, vendorDate, Requested(vendor, m).(archived := m.archived + {(ticker, vendorDate)}))
  {
  }

  lemma SlowScope()
    ensures OneVendorDate(SlowSurface()) && SlowSurface()[0].vendorDate == 0
    ensures Scoped(SlowSurface(), 0) == SlowDates() != [] && !HasRepeats(SlowDates())
  {
    ScopedAll(SlowSurface(), 0);
  }

  lemma SlowTicker(ticker: Ticker)
    ensures var t := TickerPass(SlowVendor(), ticker, SlowMachine(0, {}));
      t.exit == BudgetExceeded && t.row.Some? && t.row.value.status == Running
  {
    SlowScope();
    PassesRun(SlowVendor(), ticker, SlowMachine(0, {}), SlowDates(), 0);
    var archived: set<(Ticker, Date)> := {(ticker, 0)};
    assert Requested(SlowVendor(), SlowMachine(0, {})).(archived := {} + archived) == SlowMachine(1, archived);
    SlowPass(archived);
    SpentBeforeRecovery(SlowVendor(), ticker, SlowDates(), 0, SlowMachine(1, archived));
  }

  /** So a run over one ticker, from a fresh budget and a client that never retries, ends
      BUDGET_LIMITED with that ticker still RUNNING. */
  lemma SlowRun(ticker: Ticker)
    ensures FairVendor(SlowVendor(), 0)
    ensures var r := RunFrom(PassOf(SlowVendor()), [ticker], 0, [], SlowMachine(0, {}));
      r.status == RunBudgetLimited && |r.rows| == 1 && r.rows[0].ticker == ticker && r.rows[0].status == Running
  {
    SlowTicker(ticker);
    EveryRunIsLawful(SlowVendor(), [ticker], SlowMachine(0, {}), 0);
  }
}
