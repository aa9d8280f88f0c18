/** What the daily OI archiver asks, hears and decides: replies, rows, and both passes as functions. */
module ArchiveProtocol {
  import opened Prelude
  import opened TradingCalendar
  import opened ChainParser
  import opened ArchivePass

  const MAX_CONSUMED_UNITS := 250
  const MAX_NETWORK_ATTEMPTS := 350
  const MATERIALIZATION_MAX_ATTEMPTS := 3
  const MATERIALIZATION_MAX_WAIT := 30.0
  const RECOVERY_MAX_ATTEMPTS_PER_RUN := 7
  const RECOVERY_DEFAULT_DEFER := 2.0
  const MAX_DTE := 180

  /** One row of the expiry open-interest surface. */
  datatype DailyExpiryOi = DailyExpiryOi(expiration: Date, vendorDate: Date)

  /** A response, as either parser reads it, or a vendor error with the pause it asks for. */
  datatype Reply =
    | Received(status: int, payload: ChainPayload, surface: seq<DailyExpiryOi>, retryAfter: real)
    | Refused(httpStatus: Option<int>, pause: real)

  /** One request as observed: network attempts made, quota consumed, time taken, market date after it. */
  datatype VendorEvent = VendorEvent(reply: Reply, attempts: nat, consumed: bool, latency: real, today: Date)

  type Vendor = nat -> VendorEvent

  function DelayOf(e: VendorEvent): real {
    if e.reply.Received? then e.reply.retryAfter else e.reply.pause
  }

  /** The client makes at most `maxRetries` retries and time never runs backwards. */
  ghost predicate FairVendor(vendor: Vendor, maxRetries: nat) {
    forall n :: vendor(n).attempts <= maxRetries + 1 && vendor(n).latency >= 0.0 && DelayOf(vendor(n)) >= 0.0
  }

  /** How polling for one chain ended. */
  datatype FetchOutcome =
    | NoRoom
    | VendorRefused(httpStatus: Option<int>, pause: real, today: Date)
    | TimedOut
    | ChainReceived(payload: ChainPayload)

  /** How a pass over one ticker ended. */
  datatype Exit = Done | BudgetExceeded | VendorFailed | StorageConflict

  /** How one deferred recovery ended. */
  datatype RecoveryOutcome = RefusedAgain | TroubledAgain | Recovered

  datatype Recovery = Recovery(index: nat, outcome: RecoveryOutcome)

  function RecoveredCount(history: seq<Recovery>): nat {
    if history == [] then 0
    else RecoveredCount(history[..|history| - 1]) + (if history[|history| - 1].outcome.Recovered? then 1 else 0)
  }

  /** No expiry occurs twice. */
  ghost predicate EachOnce(history: seq<Recovery>) {
    forall i, j :: 0 <= i < j < |history| ==> history[i].index < history[j].index
  }

  datatype TickerStatus =
    | InvalidOiSurface | NoNewVendorOiSnapshot | Running | PartialArchiveBudgetLimit
    | PartialIncompleteChain | TickerComplete | TickerVendorError | TickerBudgetNotAttempted

  datatype Details = Details(full: nat, bounded: nat, trueIncomplete: nat, accepted: int, recoveryAttempts: nat, recovered: nat)

  datatype TickerRow = TickerRow(
    ticker: Ticker, status: TickerStatus, expected: nat, complete: nat, incomplete: nat, contracts: nat,
    omitted: nat, details: Option<Details>)

  function EmptyRow(ticker: Ticker, status: TickerStatus): TickerRow {
    TickerRow(ticker, status, 0, 0, 0, 0, 0, None)
  }

  function RowOf(ticker: Ticker, status: TickerStatus, p: Pass, details: Option<Details>): TickerRow {
    TickerRow(ticker, status, Expected(p), p.complete, p.incomplete, p.contracts, Omitted(p), details)
  }

  /** The conservation law each terminal ticker row obeys. */
  ghost predicate RowLaw(row: TickerRow) {
    match row.status
    case TickerComplete | PartialIncompleteChain =>
      && row.expected == row.complete + row.incomplete && row.omitted == 0 && row.details.Some?
      && row.complete == row.details.value.full + row.details.value.bounded
      && row.incomplete == row.details.value.trueIncomplete + row.details.value.accepted
      && row.details.value.accepted >= 0
      && (row.status == TickerComplete <==> row.details.value.trueIncomplete == 0)
    case PartialArchiveBudgetLimit => row.expected == row.complete + row.incomplete + row.omitted && row.omitted > 0
    case Running => row.expected == row.complete + row.incomplete && row.omitted == 0
    case TickerVendorError => row.expected >= row.complete + row.incomplete && row.omitted == 0
    case _ => row == EmptyRow(row.ticker, row.status)
  }

  datatype RunStatus = RunBudgetLimited | RunPartial | RunNoNewSnapshot | RunComplete | RunFailed

  predicate Degraded(row: TickerRow) {
    row.status == TickerVendorError || row.status == InvalidOiSurface || row.status == PartialIncompleteChain
  }

  /** `_finish`: the run status from the ticker rows. */
  function FinishStatus(budgetLimited: bool, rows: seq<TickerRow>): RunStatus {
    if budgetLimited then RunBudgetLimited
    else if exists i :: 0 <= i < |rows| && Degraded(rows[i]) then RunPartial
    else if rows != [] && forall i :: 0 <= i < |rows| ==> rows[i].status == NoNewVendorOiSnapshot then RunNoNewSnapshot
    else RunComplete
  }

  /** `_mark_unattempted_tickers` for the tickers after the current one. */
  function UnattemptedRows(tickers: seq<Ticker>): (r: seq<TickerRow>)
    ensures |r| == |tickers|
  {
    seq(|tickers|, i requires 0 <= i < |tickers| => EmptyRow(tickers[i], TickerBudgetNotAttempted))
  }

  /** Expirations in scope: calendar tenor 0..180 days. */
  function Scoped(parsed: seq<DailyExpiryOi>, vendorDate: Date): seq<Date> {
    if parsed == [] then []
    else
      var front, row := Scoped(parsed[..|parsed| - 1], vendorDate), parsed[|parsed| - 1];
      if 0 <= row.expiration - vendorDate <= MAX_DTE then front + [row.expiration] else front
  }

  predicate OneVendorDate(parsed: seq<DailyExpiryOi>) {
    parsed != [] && forall i :: 0 <= i < |parsed| ==> parsed[i].vendorDate == parsed[0].vendorDate
  }

  // ---------------------------------------------------------------- one expiry of the normal pass

  /** The normal pass stands before expiry `i`: earlier ones are decided, later ones pending. */
  ghost predicate Progress(p: Pass, i: nat) {
    && Sound(p, 0) && i <= |p.statuses|
    && (forall j :: i <= j < |p.statuses| ==> p.statuses[j].Pending?)
    && (forall j :: 0 <= j < i ==> !IsWaiting(p.statuses[j]))
    && (forall k :: 0 <= k < |p.deferred| ==> p.deferred[k].index < i)
  }

  /** A refused request: 429 defers the expiry, 404 closes it, anything else aborts the ticker. */
  function AfterRefusal(p: Pass, i: nat, status: Option<int>, today: Date, now: real): Option<Pass>
    requires i < |p.statuses| == |p.expirations|
  {
    if status == Some(429) then Some(Defer(Trouble(p, i, TransientRateLimit), i, now))
    else if status == Some(404) then Some(NotFound(p, i, p.expirations[i] < today))
    else None
  }

  lemma RefusalProgress(p: Pass, i: nat, status: Option<int>, today: Date, now: real)
    requires Progress(p, i) && i < |p.statuses|
    ensures var q := AfterRefusal(p, i, status, today, now);
      q.Some? ==> Progress(q.value, i + 1) && q.value.expirations == p.expirations
  {
    if status == Some(429) {
      TroubleKeeps(p, i, TransientRateLimit);
      DeferKeeps(Trouble(p, i, TransientRateLimit), i, now);
    } else if status == Some(404) {
      NotFoundKeeps(p, i, p.expirations[i] < today);
    }
  }

  function AfterTimeout(p: Pass, i: nat): Pass
    requires i < |p.statuses| == |p.expirations|
  {
    Trouble(p, i, MaterializationTimeout)
  }

  lemma TimeoutProgress(p: Pass, i: nat)
    requires Progress(p, i) && i < |p.statuses|
    ensures Progress(AfterTimeout(p, i), i + 1)
  {
    TroubleKeeps(p, i, MaterializationTimeout);
  }

  /** A parsed chain: stored when complete, deferred when the response was invalid. None stands for
      the storage conflict of a symbol already stored for this vendor date. */
  function AfterChain(p: Pass, i: nat, chain: CompleteChain, now: real): Option<Pass>
    requires i < |p.statuses| == |p.expirations|
  {
    if chain.Complete() then
      if SymbolClash(p.stored, chain.contracts) then None else Some(Store(p, i, chain))
    else
      var q := Trouble(p, i, IncompleteChain(chain.reason));
      Some(if chain.reason == InvalidResponse then Defer(q, i, now + RECOVERY_DEFAULT_DEFER) else q)
  }

  lemma ChainProgress(p: Pass, i: nat, chain: CompleteChain, now: real)
    requires Progress(p, i) && i < |p.statuses| && (chain.Complete() ==> DistinctChain(chain))
    ensures var q := AfterChain(p, i, chain, now);
      q.Some? ==> Progress(q.value, i + 1) && q.value.expirations == p.expirations
  {
    if chain.Complete() {
      if !SymbolClash(p.stored, chain.contracts) { StoreKeeps(p, i, chain); }
    } else {
      TroubleKeeps(p, i, IncompleteChain(chain.reason));
      if chain.reason == InvalidResponse {
        DeferKeeps(Trouble(p, i, IncompleteChain(chain.reason)), i, now + RECOVERY_DEFAULT_DEFER);
      }
    }
  }

  /** The budget ran out before expiry `i`. */
  lemma OmissionEnds(p: Pass, i: nat)
    requires Progress(p, i) && i < |p.statuses|
    ensures var q := p.(statuses := Omit(p.statuses, i));
      Sound(q, 0) && NonePending(q) && !NoneOmitted(q)
  {
    OmitKeeps(p, i);
    assert Omit(p.statuses, i)[i].BudgetNotAttempted?;
  }

  // ---------------------------------------------------------------- one deferred recovery

  /** A retried expiry: its new pass and how the retry ended; None is the storage conflict. */
  function AfterRetry(p: Pass, k: nat, reply: Reply, chain: CompleteChain, vendorDate: Date): Option<(Pass, RecoveryOutcome)>
    requires k < |p.deferred| && p.deferred[k].index < |p.statuses| == |p.expirations| && p.incomplete > 0
  {
    var d := p.deferred[k];
    if reply.Refused? then Some((p, RefusedAgain))
    else if !chain.Complete() then
      Some((StillTroubled(p, d.index, if reply.status == 202 then MaterializationPending else IncompleteChain(chain.reason)),
            TroubledAgain))
    else if !VendorDateMatches(chain, vendorDate) then Some((StillTroubled(p, d.index, VendorDateMismatch), TroubledAgain))
    else if SymbolClash(p.stored, chain.contracts) then None
    else Some((Recover(p, d.index, d.detail, chain), Recovered))
  }

  /** The recovery pass stands before deferred entry `k`. */
  ghost predicate Recovering(p: Pass, k: nat) {
    Sound(p, k) && k <= |p.deferred| && NonePending(p) && NoneOmitted(p)
  }

  lemma RetryProgress(p: Pass, k: nat, reply: Reply, chain: CompleteChain, vendorDate: Date)
    requires Recovering(p, k) && k < |p.deferred| && (chain.Complete() ==> DistinctChain(chain))
    ensures p.incomplete > 0
    ensures var r := AfterRetry(p, k, reply, chain, vendorDate);
      r.Some? ==> var q := r.value.0;
        && Recovering(q, k + 1) && q.expirations == p.expirations && q.deferred == p.deferred
        && q.complete == p.complete + (if r.value.1.Recovered? then 1 else 0)
  {
    var d := p.deferred[k];
    assert d.detail in p.details;
    if reply.Refused? {
    } else if !chain.Complete() {
      StillTroubledKeeps(p, d.index, if reply.status == 202 then MaterializationPending else IncompleteChain(chain.reason), k);
    } else if !VendorDateMatches(chain, vendorDate) {
      StillTroubledKeeps(p, d.index, VendorDateMismatch, k);
    } else if !SymbolClash(p.stored, chain.contracts) {
      RecoverKeeps(p, k, chain);
    }
  }

  // ---------------------------------------------------------------- the protocol as a function

  /** What a run carries from request to request: position in the vendor's stream, clock, budget,
      recovery counters, the vendor dates already archived and the contract table. */
  datatype Machine = Machine(
    pos: nat, clock: real, consumed: nat, attempts: nat, recoveryAttempts: nat, recoveredChains: nat,
    archived: set<(Ticker, Date)>, table: seq<StoredContract>)

  /** A row of the contract table. */
  datatype StoredContract = StoredContract(ticker: Ticker, vendorDate: Date, contract: ContractRow)

  function TableRows(ticker: Ticker, vendorDate: Date, stored: seq<ContractRow>): (r: seq<StoredContract>)
    ensures |r| == |stored|
  {
    seq(|stored|, i requires 0 <= i < |stored| => StoredContract(ticker, vendorDate, stored[i]))
  }

  /** The machine with what the passes over a ticker stored. */
  function Kept(m: Machine, ticker: Ticker, vendorDate: Date, p: Pass): Machine {
    m.(table := m.table + TableRows(ticker, vendorDate, p.stored))
  }

  predicate Room(m: Machine) { m.consumed < MAX_CONSUMED_UNITS && m.attempts < MAX_NETWORK_ATTEMPTS }

  /** After the next request. */
  function Requested(vendor: Vendor, m: Machine): Machine {
    var e := vendor(m.pos);
    m.(pos := m.pos + 1, clock := m.clock + e.latency, attempts := m.attempts + e.attempts,
       consumed := m.consumed + if e.consumed then 1 else 0)
  }

  function Waited(m: Machine, seconds: real): Machine { m.(clock := m.clock + seconds) }

  /** Polling for one chain, started at `started` and `tries` requests old. */
  function Poll(vendor: Vendor, m: Machine, started: real, tries: nat): (FetchOutcome, Machine)
    requires tries < MATERIALIZATION_MAX_ATTEMPTS
    decreases MATERIALIZATION_MAX_ATTEMPTS - tries
  {
    if !Room(m) then (NoRoom, m)
    else
      var e, m' := vendor(m.pos), Requested(vendor, m);
      match e.reply
      case Refused(status, pause) => (VendorRefused(status, pause, e.today), m')
      case Received(status, payload, _, delay) =>
        if status != 202 then (ChainReceived(payload), m')
        else if tries + 1 >= MATERIALIZATION_MAX_ATTEMPTS || m'.clock - started + delay > MATERIALIZATION_MAX_WAIT then (TimedOut, m')
        else Poll(vendor, Waited(m', delay), started, tries + 1)
  }

  datatype PassEnd = PassEnd(pass: Pass, exit: Exit, machine: Machine)

  /** Expiry `i` of the normal pass; any exit but Done ends the pass. */
  function NormalStep(vendor: Vendor, p: Pass, i: nat, m: Machine): (r: PassEnd)
    requires i < |p.statuses| == |p.expirations|
    ensures |r.pass.statuses| == |p.statuses| && r.pass.expirations == p.expirations
  {
    var (r, m') := Poll(vendor, m, m.clock, 0);
    match r
    case NoRoom => PassEnd(p.(statuses := Omit(p.statuses, i)), BudgetExceeded, m')
    case TimedOut => PassEnd(AfterTimeout(p, i), Done, m')
    case VendorRefused(status, pause, today) =>
      var m'' := if status == Some(429) then Waited(m', pause) else m';
      var q := AfterRefusal(p, i, status, today, m''.clock);
      if q.None? then PassEnd(p, VendorFailed, m'') else PassEnd(q.value, Done, m'')
    case ChainReceived(payload) =>
      var q := AfterChain(p, i, Parse(payload, p.expirations[i]), m'.clock);
      if q.None? then PassEnd(p, StorageConflict, m') else PassEnd(q.value, Done, m')
  }

  /** A step of the normal pass over expiry `i`. */
  type PassStep = (Pass, nat, Machine) --> PassEnd

  function StepOf(vendor: Vendor): PassStep {
    (p: Pass, i: nat, m: Machine) requires i < |p.statuses| == |p.expirations| => NormalStep(vendor, p, i, m)
  }

  ghost predicate StepsInPlace(step: PassStep, p: Pass, i: nat, m: Machine) {
    i < |p.statuses| == |p.expirations| ==>
      step.requires(p, i, m)
      && |step(p, i, m).pass.statuses| == |p.statuses| && step(p, i, m).pass.expirations == p.expirations
  }

  /** Steps from expiry `i` on, until one stops the pass. */
  ghost function StepsFrom(step: PassStep, p: Pass, i: nat, m: Machine): PassEnd
    requires i <= |p.statuses| == |p.expirations|
    requires forall q, j, n :: StepsInPlace(step, q, j, n)
    decreases |p.statuses| - i
  {
    assert StepsInPlace(step, p, i, m);
    if i == |p.statuses| then PassEnd(p, Done, m)
    else
      var s := step(p, i, m);
      if s.exit != Done then s else StepsFrom(step, s.pass, i + 1, s.machine)
  }

  /** The normal pass from expiry `i` on. */
  ghost function NormalFrom(vendor: Vendor, p: Pass, i: nat, m: Machine): PassEnd
    requires i <= |p.statuses| == |p.expirations|
  {
    StepOfInPlace(vendor);
    StepsFrom(StepOf(vendor), p, i, m)
  }

  lemma StepOfInPlace(vendor: Vendor)
    ensures forall q, j, n :: StepsInPlace(StepOf(vendor), q, j, n)
  {
  }

  datatype RetryEnd = RetryEnd(pass: Pass, exit: Exit, outcome: RecoveryOutcome, machine: Machine)

  /** Deferred entry `k` names an expiry still counted incomplete. */
  predicate Retryable(p: Pass, k: nat) {
    k < |p.deferred| && p.deferred[k].index < |p.statuses| == |p.expirations| && p.incomplete > 0
  }

  /** What a retry's reply decides; None is the storage conflict. */
  function RetryDecision(p: Pass, k: nat, reply: Reply, vendorDate: Date): Option<(Pass, RecoveryOutcome)>
    requires Retryable(p, k)
  {
    var payload := if reply.Received? then reply.payload else ChainPayload(None, None);
    AfterRetry(p, k, reply, Parse(payload, p.expirations[p.deferred[k].index]), vendorDate)
  }

  /** A retry waits for its time and takes one recovery attempt. */
  function RetryStart(m: Machine, notBefore: real): Machine {
    (if m.clock < notBefore then m.(clock := notBefore) else m).(recoveryAttempts := m.recoveryAttempts + 1)
  }

  /** One retry of deferred entry `k`. */
  function RetryOne(vendor: Vendor, p: Pass, k: nat, vendorDate: Date, m: Machine): RetryEnd
    requires Retryable(p, k)
  {
    var m1 := RetryStart(m, p.deferred[k].notBefore);
    if !Room(m1) then RetryEnd(p, BudgetExceeded, RefusedAgain, m1)
    else RetryAfter(p, RetryDecision(p, k, vendor(m1.pos).reply, vendorDate), Requested(vendor, m1))
  }

  function RetryAfter(p: Pass, decided: Option<(Pass, RecoveryOutcome)>, m: Machine): RetryEnd {
    if decided.None? then RetryEnd(p, StorageConflict, RefusedAgain, m)
    else
      RetryEnd(decided.value.0, Done, decided.value.1,
               m.(recoveredChains := m.recoveredChains + if decided.value.1.Recovered? then 1 else 0))
  }

  lemma RetryIgnoresCounts(p: Pass, k: nat, reply: Reply, chain: CompleteChain, other: CompleteChain, vendorDate: Date)
    requires Retryable(p, k)
    requires chain == other.(invalidRows := chain.invalidRows)
    ensures AfterRetry(p, k, reply, chain, vendorDate) == AfterRetry(p, k, reply, other, vendorDate)
  {
  }

  lemma DeferredRetryable(p: Pass, k: nat)
    requires Recovering(p, k) && k < |p.deferred|
    ensures Retryable(p, k)
  {
    assert p.deferred[k].detail in p.details;
  }

  lemma RetryOneKeeps(vendor: Vendor, p: Pass, k: nat, vendorDate: Date, m: Machine)
    requires Recovering(p, k) && k < |p.deferred|
    ensures Retryable(p, k)
    ensures var r := RetryOne(vendor, p, k, vendorDate, m);
      if r.exit == Done then
        Recovering(r.pass, k + 1) && r.pass.deferred == p.deferred && r.pass.expirations == p.expirations
      else r.pass == p
  {
    DeferredRetryable(p, k);
    var reply := vendor(RetryStart(m, p.deferred[k].notBefore).pos).reply;
    var payload, expiration := if reply.Received? then reply.payload else ChainPayload(None, None), p.expirations[p.deferred[k].index];
    CompleteChainMeaning(payload, expiration);
    RetryProgress(p, k, reply, Parse(payload, expiration), vendorDate);
  }

  datatype RecoveryEnd = RecoveryEnd(pass: Pass, exit: Exit, history: seq<Recovery>, machine: Machine)

  /** A retry of deferred entry `k`. */
  type RetryStep = (Pass, nat, Machine) --> RetryEnd

  function RetryOf(vendor: Vendor, vendorDate: Date): RetryStep {
    (p: Pass, k: nat, m: Machine) requires Retryable(p, k) => RetryOne(vendor, p, k, vendorDate, m)
  }

  ghost predicate RetryKeeps(retry: RetryStep, p: Pass, k: nat, m: Machine) {
    Recovering(p, k) && k < |p.deferred| ==>
      retry.requires(p, k, m)
      && var r := retry(p, k, m);
         if r.exit == Done then
           Recovering(r.pass, k + 1) && r.pass.deferred == p.deferred && r.pass.expirations == p.expirations
         else r.pass == p
  }

  /** Retries from deferred entry `k` on; past the run-level cap entries are skipped. */
  ghost function RetriesFrom(retry: RetryStep, p: Pass, k: nat, history: seq<Recovery>, m: Machine): RecoveryEnd
    requires Recovering(p, k)
    requires forall q, j, n :: RetryKeeps(retry, q, j, n)
    decreases |p.deferred| - k
  {
    if k == |p.deferred| then RecoveryEnd(p, Done, history, m)
    else if m.recoveryAttempts >= RECOVERY_MAX_ATTEMPTS_PER_RUN then
      SkipDeferred(p, k);
      RetriesFrom(retry, p, k + 1, history, m)
    else
      assert RetryKeeps(retry, p, k, m);
      var r := retry(p, k, m);
      if r.exit != Done then RecoveryEnd(p, r.exit, history, r.machine)
      else RetriesFrom(retry, r.pass, k + 1, history + [Recovery(p.deferred[k].index, r.outcome)], r.machine)
  }

  /** The recovery pass from deferred entry `k` on. */
  ghost function RecoverFrom(vendor: Vendor, p: Pass, k: nat, vendorDate: Date, history: seq<Recovery>, m: Machine): RecoveryEnd
    requires Recovering(p, k)
  {
    RetryOfKeeps(vendor, vendorDate);
    RetriesFrom(RetryOf(vendor, vendorDate), p, k, history, m)
  }

  lemma RetryOfKeeps(vendor: Vendor, vendorDate: Date)
    ensures forall q, j, n :: RetryKeeps(RetryOf(vendor, vendorDate), q, j, n)
  {
    forall q, j: nat, n
      ensures RetryKeeps(RetryOf(vendor, vendorDate), q, j, n)
    {
      if Recovering(q, j) && j < |q.deferred| { RetryOneKeeps(vendor, q, j, vendorDate, n); }
    }
  }

  lemma SkipDeferred(p: Pass, k: nat)
    requires Recovering(p, k) && k < |p.deferred|
    ensures Recovering(p, k + 1)
  {
  }

  lemma CountsDoNotMatter(p: Pass, i: nat, chain: CompleteChain, other: CompleteChain, now: real)
    requires i < |p.statuses| == |p.expirations| && chain == other.(invalidRows := chain.invalidRows)
    ensures AfterChain(p, i, chain, now) == AfterChain(p, i, other, now)
  {
  }

  /** A pass that stopped before its end. */
  ghost predicate Stopped(r: PassEnd) {
    && Sound(r.pass, 0)
    && (r.exit == BudgetExceeded ==> NonePending(r.pass) && !NoneOmitted(r.pass) && !Room(r.machine))
    && (r.exit == VendorFailed || r.exit == StorageConflict ==> !NonePending(r.pass) && NoneOmitted(r.pass))
  }

  lemma NormalStepKeeps(vendor: Vendor, p: Pass, i: nat, m: Machine)
    requires Progress(p, i) && i < |p.statuses|
    ensures var r := NormalStep(vendor, p, i, m);
      if r.exit == Done then Progress(r.pass, i + 1) else Stopped(r)
  {
    var (r, m') := Poll(vendor, m, m.clock, 0);
    match r
    case NoRoom =>
      PollRoom(vendor, m, m.clock, 0);
      OmissionEnds(p, i);
    case TimedOut => TimeoutProgress(p, i);
    case VendorRefused(status, pause, today) =>
      RefusalProgress(p, i, status, today, if status == Some(429) then Waited(m', pause).clock else m'.clock);
    case ChainReceived(payload) =>
      CompleteChainMeaning(payload, p.expirations[i]);
      ChainProgress(p, i, Parse(payload, p.expirations[i]), m'.clock);
  }

  ghost predicate StepKeepsProgress(step: PassStep, p: Pass, i: nat, m: Machine)
    requires StepsInPlace(step, p, i, m)
  {
    Progress(p, i) && i < |p.statuses| ==>
      var r := step(p, i, m); if r.exit == Done then Progress(r.pass, i + 1) else Stopped(r)
  }

  lemma {:induction false} StepsFromSound(step: PassStep, p: Pass, i: nat, m: Machine)
    requires Progress(p, i)
    requires forall q, j, n :: StepsInPlace(step, q, j, n)
    requires forall q, j, n :: StepKeepsProgress(step, q, j, n)
    ensures var r := StepsFrom(step, p, i, m);
      && r.pass.expirations == p.expirations
      && if r.exit == Done then Progress(r.pass, |r.pass.statuses|) else Stopped(r)
    decreases |p.statuses| - i
  {
    assert StepsInPlace(step, p, i, m) && StepKeepsProgress(step, p, i, m);
    if i < |p.statuses| {
      var s := step(p, i, m);
      if s.exit == Done { StepsFromSound(step, s.pass, i + 1, s.machine); }
    }
  }

  /** From a sound start the normal pass ends with every snapshot decided, or with the rest omitted
      for the budget, or it aborts. */
  lemma NormalFromSound(vendor: Vendor, p: Pass, i: nat, m: Machine)
    requires Progress(p, i)
    ensures var r := NormalFrom(vendor, p, i, m);
      && r.pass.expirations == p.expirations
      && if r.exit == Done then Recovering(r.pass, 0) else Stopped(r)
  {
    var step := StepOf(vendor);
    StepOfInPlace(vendor);
    forall q, j: nat, n
      ensures StepKeepsProgress(step, q, j, n)
    {
      if Progress(q, j) && j < |q.statuses| { NormalStepKeeps(vendor, q, j, n); }
    }
    StepsFromSound(step, p, i, m);
  }

  lemma {:induction false} PollRoom(vendor: Vendor, m: Machine, started: real, tries: nat)
    requires tries < MATERIALIZATION_MAX_ATTEMPTS
    ensures var (r, m') := Poll(vendor, m, started, tries); r.NoRoom? ==> !Room(m')
    decreases MATERIALIZATION_MAX_ATTEMPTS - tries
  {
    if Room(m) {
      var e, m' := vendor(m.pos), Requested(vendor, m);
      if e.reply.Received? && e.reply.status == 202 && tries + 1 < MATERIALIZATION_MAX_ATTEMPTS {
        PollRoom(vendor, Waited(m', e.reply.retryAfter), started, tries + 1);
      }
    }
  }

  /** The end of a recovery pass: nothing pending, nothing omitted, every counter right. */
  ghost predicate Rested(p: Pass) { Recovering(p, |p.deferred|) }

  lemma {:induction false} RetriesFromSound(retry: RetryStep, p: Pass, k: nat, history: seq<Recovery>, m: Machine)
    requires Recovering(p, k)
    requires forall q, j, n :: RetryKeeps(retry, q, j, n)
    ensures var r := RetriesFrom(retry, p, k, history, m);
      Rested(r.pass) && r.pass.expirations == p.expirations
    decreases |p.deferred| - k
  {
    if k < |p.deferred| {
      if m.recoveryAttempts >= RECOVERY_MAX_ATTEMPTS_PER_RUN {
        SkipDeferred(p, k);
        RetriesFromSound(retry, p, k + 1, history, m);
      } else {
        RetryStepKeeps(retry, p, k, m);
        var r := retry(p, k, m);
        if r.exit == Done {
          RetriesFromSound(retry, r.pass, k + 1, history + [Recovery(p.deferred[k].index, r.outcome)], r.machine);
        }
      }
    }
  }

  lemma RetryStepKeeps(retry: RetryStep, p: Pass, k: nat, m: Machine)
    requires Recovering(p, k) && k < |p.deferred| && RetryKeeps(retry, p, k, m)
    ensures retry.requires(p, k, m)
    ensures var r := retry(p, k, m);
      && r.pass.expirations == p.expirations && |r.pass.deferred| == |p.deferred|
      && if r.exit == Done then Recovering(r.pass, k + 1) else Rested(r.pass)
  {
    StopRecovering(p, k);
  }

  lemma RecoverFromSound(vendor: Vendor, p: Pass, k: nat, vendorDate: Date, history: seq<Recovery>, m: Machine)
    requires Recovering(p, k)
    ensures var r := RecoverFrom(vendor, p, k, vendorDate, history, m);
      Recovering(r.pass, |r.pass.deferred|) && r.pass.expirations == p.expirations
  {
    RetryOfKeeps(vendor, vendorDate);
    RetriesFromSound(RetryOf(vendor, vendorDate), p, k, history, m);
  }

  /** A retry takes one recovery attempt, and counts a recovered chain only with one more complete. */
  ghost predicate RetryCounts(retry: RetryStep, p: Pass, k: nat, m: Machine) {
    Retryable(p, k) ==>
      retry.requires(p, k, m)
      && var r := retry(p, k, m);
      && r.machine.recoveryAttempts == m.recoveryAttempts + 1
      && (r.exit == Done ==> r.machine.recoveredChains - m.recoveredChains == (if r.outcome.Recovered? then 1 else 0))
      && (r.exit == Done ==> r.pass.complete - p.complete == (if r.outcome.Recovered? then 1 else 0))
      && r.exit != VendorFailed && (r.exit == BudgetExceeded ==> !Room(r.machine))
  }

  ghost predicate Earlier(history: seq<Recovery>, p: Pass, k: nat) {
    k < |p.deferred| ==> forall i :: 0 <= i < |history| ==> history[i].index < p.deferred[k].index
  }

  lemma {:induction false} RetriesAreBounded(retry: RetryStep, p: Pass, k: nat, history: seq<Recovery>, m: Machine)
    requires Recovering(p, k) && EachOnce(history) && Earlier(history, p, k) && m.recoveryAttempts <= RECOVERY_MAX_ATTEMPTS_PER_RUN
    requires forall q, j, n :: RetryKeeps(retry, q, j, n)
    requires forall q, j, n :: RetryCounts(retry, q, j, n)
    ensures var r := RetriesFrom(retry, p, k, history, m);
      && EachOnce(r.history) && |r.history| - |history| <= |p.deferred| - k
      && r.machine.recoveryAttempts <= RECOVERY_MAX_ATTEMPTS_PER_RUN
      && r.machine.recoveryAttempts == m.recoveryAttempts + |r.history| - |history| + (if r.exit == Done then 0 else 1)
      && r.exit != VendorFailed && (r.exit == BudgetExceeded ==> !Room(r.machine))
      && (r.exit == Done ==>
            && r.machine.recoveredChains - m.recoveredChains == RecoveredCount(r.history) - RecoveredCount(history)
            && r.pass.complete - p.complete == RecoveredCount(r.history) - RecoveredCount(history))
    decreases |p.deferred| - k
  {
    if k < |p.deferred| {
      if m.recoveryAttempts >= RECOVERY_MAX_ATTEMPTS_PER_RUN {
        SkipDeferred(p, k);
        EarlierMoves(history, p, k);
        RetriesAreBounded(retry, p, k + 1, history, m);
      } else {
        DeferredRetryable(p, k);
        RetryStepKeeps(retry, p, k, m);
        assert RetryKeeps(retry, p, k, m) && RetryCounts(retry, p, k, m);
        var r := retry(p, k, m);
        if r.exit == Done {
          var more := history + [Recovery(p.deferred[k].index, r.outcome)];
          assert more[..|history|] == history;
          NextEarlier(history, p, r.pass, k, r.outcome);
          RetriesAreBounded(retry, r.pass, k + 1, more, r.machine);
        }
      }
    }
  }

  lemma EarlierMoves(history: seq<Recovery>, p: Pass, k: nat)
    requires Recovering(p, k) && k < |p.deferred| && Earlier(history, p, k)
    ensures Earlier(history, p, k + 1)
  {
  }

  lemma NextEarlier(history: seq<Recovery>, p: Pass, q: Pass, k: nat, outcome: RecoveryOutcome)
    requires Recovering(p, k) && k < |p.deferred| && q.deferred == p.deferred && EachOnce(history) && Earlier(history, p, k)
    ensures var more := history + [Recovery(p.deferred[k].index, outcome)]; EachOnce(more) && Earlier(more, q, k + 1)
  {
  }

  lemma RetryOfCounts(vendor: Vendor, vendorDate: Date)
    ensures forall q, j, n :: RetryCounts(RetryOf(vendor, vendorDate), q, j, n)
  {
    forall q, j: nat, n
      ensures RetryCounts(RetryOf(vendor, vendorDate), q, j, n)
    {
      if Retryable(q, j) { RetryOneCounts(vendor, q, j, vendorDate, n); }
    }
  }

  lemma RetryOneCounts(vendor: Vendor, p: Pass, k: nat, vendorDate: Date, m: Machine)
    requires Retryable(p, k)
    ensures var r := RetryOne(vendor, p, k, vendorDate, m);
      && r.machine.recoveryAttempts == m.recoveryAttempts + 1
      && (r.exit == Done ==> r.machine.recoveredChains - m.recoveredChains == (if r.outcome.Recovered? then 1 else 0))
      && (r.exit == Done ==> r.pass.complete - p.complete == (if r.outcome.Recovered? then 1 else 0))
      && r.exit != VendorFailed && (r.exit == BudgetExceeded ==> !Room(r.machine))
  {
  }

  /** No expiry is retried twice, the run-wide cap of seven holds, and complete chains grow by
      exactly the recovered ones. */
  lemma RecoveryIsBounded(vendor: Vendor, p: Pass, vendorDate: Date, m: Machine)
    requires Recovering(p, 0) && m.recoveryAttempts <= RECOVERY_MAX_ATTEMPTS_PER_RUN
    ensures var r := RecoverFrom(vendor, p, 0, vendorDate, [], m);
      && EachOnce(r.history) && |r.history| <= |p.deferred|
      && r.machine.recoveryAttempts <= RECOVERY_MAX_ATTEMPTS_PER_RUN
      && r.machine.recoveryAttempts == m.recoveryAttempts + |r.history| + (if r.exit == Done then 0 else 1)
      && r.exit != VendorFailed && (r.exit == BudgetExceeded ==> !Room(r.machine))
      && (r.exit == Done ==>
            && r.machine.recoveredChains - m.recoveredChains == RecoveredCount(r.history)
            && r.pass.complete - p.complete == RecoveredCount(r.history))
  {
    RetryOfKeeps(vendor, vendorDate);
    RetryOfCounts(vendor, vendorDate);
    RetriesAreBounded(RetryOf(vendor, vendorDate), p, 0, [], m);
  }

  lemma StopRecovering(p: Pass, k: nat)
    requires Recovering(p, k)
    ensures Rested(p)
  {
  }

  // ---------------------------------------------------------------- one ticker, one run

  /** The final accounting of a ticker whose passes ran to their end. */
  function CompletedRow(ticker: Ticker, p: Pass, history: seq<Recovery>): TickerRow
    requires |p.unavailable| >= BlocksCount(p.unavailable)
  {
    var active := exists i :: 0 <= i < |p.statuses| && p.statuses[i].ActiveChainUnavailable?;
    RowOf(ticker, if p.details != [] || active then PartialIncompleteChain else TickerComplete, p, Some(Details(
      p.full, p.bounded, TrueIncomplete(p), AcceptedUnavailable(p), |history|, RecoveredCount(history))))
  }

  lemma CompletedRowLaw(ticker: Ticker, p: Pass, history: seq<Recovery>)
    requires Recovering(p, |p.deferred|)
    ensures |p.unavailable| >= BlocksCount(p.unavailable) && RowLaw(CompletedRow(ticker, p, history))
  {
    ActiveAreUnavailable(p.unavailable);
    Conservation(p, |p.deferred|);
    CleanIffNoTrueIncomplete(p, |p.deferred|);
  }

  lemma BudgetRowLaw(ticker: Ticker, p: Pass)
    requires Sound(p, 0) && NonePending(p) && !NoneOmitted(p)
    ensures RowLaw(RowOf(ticker, PartialArchiveBudgetLimit, p, None))
  {
    Conservation(p, 0);
    CountNone(p.statuses, (s: ChainStatus) => s.BudgetNotAttempted?);
  }

  lemma RunningRowLaw(ticker: Ticker, p: Pass)
    requires Recovering(p, |p.deferred|)
    ensures RowLaw(RowOf(ticker, Running, p, None))
  {
    Conservation(p, |p.deferred|);
  }

  lemma AbortedRowLaw(ticker: Ticker, p: Pass)
    requires Sound(p, 0) && !NonePending(p) && NoneOmitted(p)
    ensures var row := RowOf(ticker, Running, p, None);
      row.expected > row.complete + row.incomplete && row.omitted == 0
  {
    CountAll(p.statuses);
    CountNone(p.statuses, (s: ChainStatus) => s.BudgetNotAttempted?);
    CountNone(p.statuses, IsWaiting);
  }

  predicate HasRepeats(scoped: seq<Date>) {
    exists i, j :: 0 <= i < j < |scoped| && scoped[i] == scoped[j]
  }

  datatype TickerEnd = TickerEnd(row: Option<TickerRow>, exit: Exit, machine: Machine)

  /** The recovery pass and the final accounting. */
  ghost function RecoveredEnd(vendor: Vendor, ticker: Ticker, p: Pass, vendorDate: Date, m: Machine): TickerEnd
    requires Recovering(p, 0)
  {
    RecoverFromSound(vendor, p, 0, vendorDate, [], m);
    var r := RecoverFrom(vendor, p, 0, vendorDate, [], m);
    ActiveAreUnavailable(r.pass.unavailable);
    TickerEnd(Some(if r.exit == Done then CompletedRow(ticker, r.pass, r.history) else RowOf(ticker, Running, r.pass, None)),
              r.exit, Kept(r.machine, ticker, vendorDate, r.pass))
  }

  /** Both passes over the scoped expiries of one ticker. */
  ghost function PassesOver(vendor: Vendor, ticker: Ticker, scoped: seq<Date>, vendorDate: Date, m: Machine): TickerEnd
    requires DistinctExpirations(scoped)
  {
    StartIsSound(scoped);
    NormalFromSound(vendor, Start(scoped), 0, m);
    var n := NormalFrom(vendor, Start(scoped), 0, m);
    if n.exit != Done then
      TickerEnd(Some(RowOf(ticker, if n.exit == BudgetExceeded then PartialArchiveBudgetLimit else Running, n.pass, None)),
                n.exit, Kept(n.machine, ticker, vendorDate, n.pass))
    else RecoveredEnd(vendor, ticker, n.pass, vendorDate, n.machine)
  }

  /** `_archive_ticker`; the row is the one last committed. */
  ghost function TickerPass(vendor: Vendor, ticker: Ticker, m: Machine): TickerEnd {
    if !Room(m) then TickerEnd(None, BudgetExceeded, m)
    else
      var e, m1 := vendor(m.pos), Requested(vendor, m);
      if e.reply.Refused? then TickerEnd(None, VendorFailed, m1)
      else
        var parsed := e.reply.surface;
        if !OneVendorDate(parsed) then TickerEnd(Some(EmptyRow(ticker, InvalidOiSurface)), Done, m1)
        else
          var vendorDate := parsed[0].vendorDate;
          var scoped := Scoped(parsed, vendorDate);
          if (ticker, vendorDate) in m1.archived then TickerEnd(Some(EmptyRow(ticker, NoNewVendorOiSnapshot)), Done, m1)
          else if HasRepeats(scoped) then TickerEnd(None, StorageConflict, m1)
          else
            PassesOver(vendor, ticker, scoped, vendorDate,
                       if scoped == [] then m1 else m1.(archived := m1.archived + {(ticker, vendorDate)}))
  }

  datatype RunEnd = RunEnd(status: RunStatus, rows: seq<TickerRow>, budgetLimited: bool, machine: Machine)

  /** The row of a ticker whose pass ended in a vendor error. */
  function ErrorRow(ticker: Ticker, row: Option<TickerRow>): TickerRow {
    if row.Some? then row.value.(status := TickerVendorError, details := None) else EmptyRow(ticker, TickerVendorError)
  }

  /** The pass over one ticker. */
  type TickerStep = (Ticker, Machine) -> TickerEnd

  ghost function PassOf(vendor: Vendor): TickerStep { (ticker: Ticker, m: Machine) => TickerPass(vendor, ticker, m) }

  /** The run from ticker `n` on. */
  ghost function RunFrom(pass: TickerStep, universe: seq<Ticker>, n: nat, rows: seq<TickerRow>, m: Machine): RunEnd
    requires n <= |universe|
    decreases |universe| - n
  {
    if n == |universe| then RunEnd(FinishStatus(false, rows), rows, false, m)
    else
      var t := pass(universe[n], m);
      match t.exit
      case Done =>
        if t.row.None? then RunEnd(RunFailed, rows, false, t.machine)
        else RunFrom(pass, universe, n + 1, rows + [t.row.value], t.machine)
      case VendorFailed => RunFrom(pass, universe, n + 1, rows + [ErrorRow(universe[n], t.row)], t.machine)
      case BudgetExceeded =>
        var current := if t.row.Some? then t.row.value else EmptyRow(universe[n], TickerBudgetNotAttempted);
        var all := rows + [current] + UnattemptedRows(universe[n + 1..]);
        RunEnd(FinishStatus(true, all), all, true, t.machine)
      case StorageConflict => RunEnd(RunFailed, rows, false, t.machine)
  }
}
