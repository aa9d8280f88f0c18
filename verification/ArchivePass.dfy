/** The working state of one archived ticker and the steps that move its counters. */
module ArchivePass {
  import opened Prelude
  import opened TradingCalendar
  import opened ChainParser

  datatype ChainStatus =
    | Pending
    | Complete | CompleteBounded
    | ExpiredChainUnavailable | ActiveChainUnavailable
    | TransientRateLimit | MaterializationTimeout | MaterializationPending | VendorDateMismatch
    | IncompleteChain(reason: ChainReason)
    | BudgetNotAttempted

  predicate IsComplete(s: ChainStatus) { s.Complete? || s.CompleteBounded? }

  predicate IsUnavailable(s: ChainStatus) { s.ExpiredChainUnavailable? || s.ActiveChainUnavailable? }

  predicate IsWaiting(s: ChainStatus) { s.Pending? || s.BudgetNotAttempted? }

  /** Attempted, and neither complete nor a 404. */
  predicate IsTroubled(s: ChainStatus) { !IsComplete(s) && !IsUnavailable(s) && !IsWaiting(s) }

  function Count(statuses: seq<ChainStatus>, p: ChainStatus -> bool): nat {
    if statuses == [] then 0
    else Count(statuses[..|statuses| - 1], p) + (if p(statuses[|statuses| - 1]) then 1 else 0)
  }

  lemma {:induction false} CountUpdate(statuses: seq<ChainStatus>, p: ChainStatus -> bool, i: nat, s: ChainStatus)
    requires i < |statuses|
    ensures Count(statuses[i := s], p) == Count(statuses, p) - (if p(statuses[i]) then 1 else 0) + (if p(s) then 1 else 0)
  {
    var n := |statuses| - 1;
    if i < n {
      CountUpdate(statuses[..n], p, i, s);
      assert statuses[i := s][..n] == statuses[..n][i := s];
    } else {
      assert statuses[i := s][..n] == statuses[..n];
    }
  }

  lemma {:induction false} CountAll(statuses: seq<ChainStatus>)
    ensures |statuses| == Count(statuses, IsComplete) + Count(statuses, IsUnavailable)
                        + Count(statuses, IsTroubled) + Count(statuses, IsWaiting)
  {
    if statuses != [] { CountAll(statuses[..|statuses| - 1]); }
  }

  lemma {:induction false} CountNone(statuses: seq<ChainStatus>, p: ChainStatus -> bool)
    ensures Count(statuses, p) == 0 <==> forall i :: 0 <= i < |statuses| ==> !p(statuses[i])
  {
    if statuses != [] { CountNone(statuses[..|statuses| - 1], p); }
  }

  predicate IsFull(s: ChainStatus) { s.Complete? }
  predicate IsBounded(s: ChainStatus) { s.CompleteBounded? }
  predicate IsActive(s: ChainStatus) { s.ActiveChainUnavailable? }

  /** One stored contract of this ticker and vendor date. */
  datatype ContractRow = ContractRow(expiration: Date, symbol: int)

  /** An entry of `incomplete_expiries`. */
  datatype Detail = Detail(expiration: Date, reason: ChainStatus)

  /** A deferred recovery of expiry number `index`. */
  datatype Deferred = Deferred(index: nat, detail: Detail, notBefore: real)

  /** The locals of the ticker pass: snapshots, counters, detail lists and the contract table. */
  datatype Pass = Pass(
    expirations: seq<Date>, statuses: seq<ChainStatus>,
    complete: nat, incomplete: nat, contracts: nat, full: nat, bounded: nat,
    details: seq<Detail>, unavailable: seq<(Date, bool)>, deferred: seq<Deferred>, stored: seq<ContractRow>)

  function BlocksCount(unavailable: seq<(Date, bool)>): nat {
    if unavailable == [] then 0
    else BlocksCount(unavailable[..|unavailable| - 1]) + (if unavailable[|unavailable| - 1].1 then 1 else 0)
  }

  function StoredSymbols(stored: seq<ContractRow>, e: Date): seq<int> {
    if stored == [] then []
    else
      var front, last := StoredSymbols(stored[..|stored| - 1], e), stored[|stored| - 1];
      if last.expiration == e then front + [last.symbol] else front
  }

  ghost predicate UniqueSymbols(stored: seq<ContractRow>) {
    forall i, j :: 0 <= i < j < |stored| ==> stored[i].symbol != stored[j].symbol
  }

  /** Counters against snapshots. */
  ghost predicate Tallied(p: Pass) {
    && |p.statuses| == |p.expirations|
    && p.full == Count(p.statuses, IsFull) && p.bounded == Count(p.statuses, IsBounded)
    && p.complete == p.full + p.bounded == Count(p.statuses, IsComplete)
    && |p.details| == Count(p.statuses, IsTroubled)
    && |p.unavailable| == Count(p.statuses, IsUnavailable)
    && BlocksCount(p.unavailable) == Count(p.statuses, IsActive)
    && p.incomplete == |p.details| + |p.unavailable|
    && p.contracts == |p.stored|
  }

  /** Only complete expiries own stored contracts, and no symbol is stored twice. */
  ghost predicate StoredOnce(p: Pass) {
    && UniqueSymbols(p.stored)
    && forall i :: 0 <= i < |p.expirations| && i < |p.statuses| && !IsComplete(p.statuses[i]) ==>
         StoredSymbols(p.stored, p.expirations[i]) == []
  }

  /** Deferred expiries are distinct, still troubled, and their details are in the list. */
  ghost predicate DeferredOk(p: Pass, from: nat) {
    && (forall i, j :: 0 <= i < j < |p.deferred| ==> p.deferred[i].index < p.deferred[j].index)
    && forall i :: from <= i < |p.deferred| ==>
         && p.deferred[i].index < |p.statuses| == |p.expirations| && IsTroubled(p.statuses[p.deferred[i].index])
         && p.deferred[i].detail.expiration == p.expirations[p.deferred[i].index]
         && p.deferred[i].detail in p.details
  }

  ghost predicate DistinctExpirations(es: seq<Date>) {
    forall i, j :: 0 <= i < j < |es| ==> es[i] != es[j]
  }

  ghost predicate Sound(p: Pass, from: nat) {
    Tallied(p) && StoredOnce(p) && DeferredOk(p, from) && DistinctExpirations(p.expirations)
  }

  // ---------------------------------------------------------------- steps

  function Start(expirations: seq<Date>): Pass {
    Pass(expirations, seq(|expirations|, _ => Pending), 0, 0, 0, 0, 0, [], [], [], [])
  }

  /** A troubled outcome of expiry `i` in the normal pass. */
  function Trouble(p: Pass, i: nat, s: ChainStatus): Pass
    requires i < |p.statuses| == |p.expirations|
  {
    p.(statuses := p.statuses[i := s], incomplete := p.incomplete + 1,
       details := p.details + [Detail(p.expirations[i], s)])
  }

  function Defer(p: Pass, i: nat, notBefore: real): Pass
    requires i < |p.expirations| && p.details != []
  {
    p.(deferred := p.deferred + [Deferred(i, p.details[|p.details| - 1], notBefore)])
  }

  /** A 404 of expiry `i`. */
  function NotFound(p: Pass, i: nat, expired: bool): Pass
    requires i < |p.statuses| == |p.expirations|
  {
    p.(statuses := p.statuses[i := if expired then ExpiredChainUnavailable else ActiveChainUnavailable],
       incomplete := p.incomplete + 1, unavailable := p.unavailable + [(p.expirations[i], !expired)])
  }

  function RowsFor(expiration: Date, contracts: seq<Contract>): seq<ContractRow> {
    seq(|contracts|, k requires 0 <= k < |contracts| => ContractRow(expiration, contracts[k].symbol))
  }

  /** The unique constraint on (ticker, symbol, vendor date) would reject these contracts. */
  predicate SymbolClash(stored: seq<ContractRow>, contracts: seq<Contract>) {
    exists j, k :: 0 <= j < |stored| && 0 <= k < |contracts| && stored[j].symbol == contracts[k].symbol
  }

  /** Stores a complete chain of expiry `i` and counts it. */
  function Store(p: Pass, i: nat, chain: CompleteChain): Pass
    requires i < |p.statuses| == |p.expirations|
  {
    var isBounded := chain.reason == CompleteBoundedSnapshot;
    p.(statuses := p.statuses[i := if isBounded then CompleteBounded else Complete],
       complete := p.complete + 1, contracts := p.contracts + |chain.contracts|,
       full := p.full + (if isBounded then 0 else 1), bounded := p.bounded + (if isBounded then 1 else 0),
       stored := p.stored + RowsFor(p.expirations[i], chain.contracts))
  }

  function RemoveFirst(details: seq<Detail>, d: Detail): seq<Detail> {
    if details == [] then []
    else if details[0] == d then details[1..]
    else [details[0]] + RemoveFirst(details[1..], d)
  }

  /** A successful recovery: the expiry moves from incomplete to complete. */
  function Recover(p: Pass, i: nat, detail: Detail, chain: CompleteChain): Pass
    requires i < |p.statuses| == |p.expirations| && p.incomplete > 0
  {
    Store(p, i, chain).(incomplete := p.incomplete - 1, details := RemoveFirst(p.details, detail))
  }

  /** A recovery attempt that ended in another troubled status. */
  function StillTroubled(p: Pass, i: nat, s: ChainStatus): Pass
    requires i < |p.statuses|
  {
    p.(statuses := p.statuses[i := s])
  }

  /** `mark_expiry_budget_omissions` from expiry `from` on. */
  function Omit(statuses: seq<ChainStatus>, from: nat): (r: seq<ChainStatus>)
    requires from <= |statuses|
    ensures |r| == |statuses|
  {
    seq(|statuses|, j requires 0 <= j < |statuses| =>
      if from <= j && statuses[j].Pending? then BudgetNotAttempted else statuses[j])
  }

  // ---------------------------------------------------------------- what the steps keep

  lemma {:induction false} CountPending(n: nat, p: ChainStatus -> bool)
    ensures Count(seq(n, _ => Pending), p) == if p(Pending) then n else 0
  {
    if n > 0 {
      CountPending(n - 1, p);
      assert seq(n, _ => Pending)[..n - 1] == seq(n - 1, _ => Pending);
    }
  }

  lemma StartIsSound(expirations: seq<Date>)
    requires DistinctExpirations(expirations)
    ensures Sound(Start(expirations), 0)
  {
    var n := |expirations|;
    CountPending(n, IsFull);
    CountPending(n, IsBounded);
    CountPending(n, IsComplete);
    CountPending(n, IsTroubled);
    CountPending(n, IsUnavailable);
    CountPending(n, IsActive);
  }

  lemma CountsMove(p: Pass, i: nat, s: ChainStatus)
    requires i < |p.statuses|
    ensures forall c :: c == IsFull || c == IsBounded || c == IsComplete || c == IsTroubled || c == IsUnavailable || c == IsActive ==>
      Count(p.statuses[i := s], c) == Count(p.statuses, c) - (if c(p.statuses[i]) then 1 else 0) + (if c(s) then 1 else 0)
  {
    CountUpdate(p.statuses, IsFull, i, s);
    CountUpdate(p.statuses, IsBounded, i, s);
    CountUpdate(p.statuses, IsComplete, i, s);
    CountUpdate(p.statuses, IsTroubled, i, s);
    CountUpdate(p.statuses, IsUnavailable, i, s);
    CountUpdate(p.statuses, IsActive, i, s);
  }

  lemma TroubleKeeps(p: Pass, i: nat, s: ChainStatus)
    requires Sound(p, 0) && i < |p.statuses| && p.statuses[i].Pending? && IsTroubled(s)
    ensures Sound(Trouble(p, i, s), 0)
  {
    CountsMove(p, i, s);
  }

  lemma DeferKeeps(p: Pass, i: nat, notBefore: real)
    requires Sound(p, 0) && i < |p.statuses| && IsTroubled(p.statuses[i]) && p.details != []
    requires p.details[|p.details| - 1].expiration == p.expirations[i]
    requires forall k :: 0 <= k < |p.deferred| ==> p.deferred[k].index < i
    ensures Sound(Defer(p, i, notBefore), 0)
  {
  }

  lemma NotFoundKeeps(p: Pass, i: nat, expired: bool)
    requires Sound(p, 0) && i < |p.statuses| && p.statuses[i].Pending?
    ensures Sound(NotFound(p, i, expired), 0)
  {
    var s := if expired then ExpiredChainUnavailable else ActiveChainUnavailable;
    CountsMove(p, i, s);
  }

  lemma StillTroubledKeeps(p: Pass, i: nat, s: ChainStatus, from: nat)
    requires Sound(p, from) && i < |p.statuses| && IsTroubled(p.statuses[i]) && IsTroubled(s)
    ensures Sound(StillTroubled(p, i, s), from)
  {
    CountsMove(p, i, s);
  }

  lemma {:induction false} StoredConcat(a: seq<ContractRow>, b: seq<ContractRow>, e: Date)
    ensures StoredSymbols(a + b, e) == StoredSymbols(a, e) + StoredSymbols(b, e)
  {
    if b == [] {
      assert a + b == a;
    } else {
      StoredConcat(a, b[..|b| - 1], e);
      assert (a + b)[..|a + b| - 1] == a + b[..|b| - 1];
    }
  }

  function Symbols(contracts: seq<Contract>): seq<int> {
    seq(|contracts|, k requires 0 <= k < |contracts| => contracts[k].symbol)
  }

  lemma {:induction false} StoredRows(expiration: Date, contracts: seq<Contract>, e: Date)
    ensures StoredSymbols(RowsFor(expiration, contracts), e) == if e == expiration then Symbols(contracts) else []
  {
    if contracts != [] {
      var n := |contracts| - 1;
      StoredRows(expiration, contracts[..n], e);
      assert RowsFor(expiration, contracts)[..n] == RowsFor(expiration, contracts[..n]);
      assert Symbols(contracts) == Symbols(contracts[..n]) + [contracts[n].symbol];
    }
  }

  /** Storing a complete chain for an expiry without contracts stores exactly that chain's symbols
      for it, and leaves every other expiry's contracts alone. */
  lemma StoreWrites(p: Pass, i: nat, chain: CompleteChain, e: Date)
    requires i < |p.statuses| == |p.expirations|
    ensures StoredSymbols(Store(p, i, chain).stored, e)
         == StoredSymbols(p.stored, e) + (if e == p.expirations[i] then Symbols(chain.contracts) else [])
  {
    StoredConcat(p.stored, RowsFor(p.expirations[i], chain.contracts), e);
    StoredRows(p.expirations[i], chain.contracts, e);
  }

  ghost predicate DistinctChain(chain: CompleteChain) {
    forall i, j :: 0 <= i < j < |chain.contracts| ==> chain.contracts[i].symbol != chain.contracts[j].symbol
  }

  lemma StoreKeepsContracts(p: Pass, i: nat, chain: CompleteChain)
    requires StoredOnce(p) && DistinctExpirations(p.expirations) && DistinctChain(chain)
    requires i < |p.statuses| == |p.expirations| && !SymbolClash(p.stored, chain.contracts)
    ensures StoredOnce(Store(p, i, chain))
  {
    var q := Store(p, i, chain);
    forall k | 0 <= k < |q.expirations| && !IsComplete(q.statuses[k])
      ensures StoredSymbols(q.stored, q.expirations[k]) == []
    {
      StoreWrites(p, i, chain, q.expirations[k]);
    }
    forall a, b | 0 <= a < b < |q.stored|
      ensures q.stored[a].symbol != q.stored[b].symbol
    {
      if a < |p.stored| && |p.stored| <= b {
        assert p.stored[a].symbol != chain.contracts[b - |p.stored|].symbol;
      }
    }
  }

  lemma StoreKeeps(p: Pass, i: nat, chain: CompleteChain)
    requires Sound(p, 0) && i < |p.statuses| && p.statuses[i].Pending?
    requires DistinctChain(chain) && !SymbolClash(p.stored, chain.contracts)
    ensures Sound(Store(p, i, chain), 0)
  {
    var s := if chain.reason == CompleteBoundedSnapshot then CompleteBounded else Complete;
    CountsMove(p, i, s);
    StoreKeepsContracts(p, i, chain);
  }

  lemma {:induction false} RemoveFirstFacts(details: seq<Detail>, d: Detail, other: Detail)
    requires d in details
    ensures |RemoveFirst(details, d)| == |details| - 1
    ensures other in details && other != d ==> other in RemoveFirst(details, d)
  {
    if details[0] != d {
      RemoveFirstFacts(details[1..], d, other);
    }
  }

  lemma RecoverKeeps(p: Pass, k: nat, chain: CompleteChain)
    requires Sound(p, k) && k < |p.deferred| && DistinctChain(chain) && !SymbolClash(p.stored, chain.contracts)
    ensures p.incomplete > 0
    ensures Sound(Recover(p, p.deferred[k].index, p.deferred[k].detail, chain), k + 1)
  {
    var d := p.deferred[k];
    RemoveFirstFacts(p.details, d.detail, d.detail);
    RecoverTallies(p, d.index, d.detail, chain);
    StoreKeepsContracts(p, d.index, chain);
    RecoverKeepsDeferred(p, k, chain);
  }

  lemma RecoverTallies(p: Pass, i: nat, detail: Detail, chain: CompleteChain)
    requires Tallied(p) && i < |p.statuses| && IsTroubled(p.statuses[i]) && p.incomplete > 0
    requires |RemoveFirst(p.details, detail)| == |p.details| - 1
    ensures Tallied(Recover(p, i, detail, chain))
  {
    CountsMove(p, i, if chain.reason == CompleteBoundedSnapshot then CompleteBounded else Complete);
  }

  lemma RecoverKeepsDeferred(p: Pass, k: nat, chain: CompleteChain)
    requires DeferredOk(p, k) && DistinctExpirations(p.expirations) && k < |p.deferred| && p.incomplete > 0
    requires p.deferred[k].index < |p.statuses| == |p.expirations|
    ensures DeferredOk(Recover(p, p.deferred[k].index, p.deferred[k].detail, chain), k + 1)
  {
    var d := p.deferred[k];
    var q := Recover(p, d.index, d.detail, chain);
    forall m | k + 1 <= m < |q.deferred|
      ensures q.deferred[m].detail in q.details && IsTroubled(q.statuses[q.deferred[m].index])
    {
      assert p.deferred[k].index < p.deferred[m].index;
      assert p.expirations[p.deferred[k].index] != p.expirations[p.deferred[m].index];
      RemoveFirstFacts(p.details, d.detail, p.deferred[m].detail);
    }
  }

  lemma {:induction false} OmitCounts(statuses: seq<ChainStatus>, from: nat, p: ChainStatus -> bool)
    requires from <= |statuses| && p(Pending) == p(BudgetNotAttempted)
    ensures Count(Omit(statuses, from), p) == Count(statuses, p)
  {
    if statuses != [] {
      var n := |statuses| - 1;
      if from <= n {
        OmitCounts(statuses[..n], from, p);
        assert Omit(statuses, from)[..n] == Omit(statuses[..n], from);
      } else {
        assert Omit(statuses, from) == statuses;
      }
    }
  }

  lemma OmitKeeps(p: Pass, from: nat)
    requires Sound(p, 0) && from <= |p.statuses|
    requires forall j :: from <= j < |p.statuses| ==> p.statuses[j].Pending?
    requires forall k :: 0 <= k < |p.deferred| ==> p.deferred[k].index < from
    ensures Sound(p.(statuses := Omit(p.statuses, from)), 0)
  {
    OmitCounts(p.statuses, from, IsFull);
    OmitCounts(p.statuses, from, IsBounded);
    OmitCounts(p.statuses, from, IsComplete);
    OmitCounts(p.statuses, from, IsTroubled);
    OmitCounts(p.statuses, from, IsUnavailable);
    OmitCounts(p.statuses, from, IsActive);
  }

  // ---------------------------------------------------------------- conservation

  function TrueIncomplete(p: Pass): nat { |p.details| + BlocksCount(p.unavailable) }

  /** Expired 404s, the accepted lifecycle gaps. */
  function AcceptedUnavailable(p: Pass): int { |p.unavailable| - BlocksCount(p.unavailable) }

  function Expected(p: Pass): nat { |p.expirations| }

  predicate NonePending(p: Pass) {
    forall i :: 0 <= i < |p.statuses| ==> !p.statuses[i].Pending?
  }

  function Omitted(p: Pass): nat { Count(p.statuses, (s: ChainStatus) => s.BudgetNotAttempted?) }

  predicate NoneOmitted(p: Pass) {
    forall i :: 0 <= i < |p.statuses| ==> !p.statuses[i].BudgetNotAttempted?
  }

  lemma {:induction false} WaitingIsOmitted(statuses: seq<ChainStatus>)
    requires forall i :: 0 <= i < |statuses| ==> !statuses[i].Pending?
    ensures Count(statuses, IsWaiting) == Count(statuses, (s: ChainStatus) => s.BudgetNotAttempted?)
  {
    if statuses != [] { WaitingIsOmitted(statuses[..|statuses| - 1]); }
  }

  /** The conservation laws of a sound pass with no snapshot left pending. */
  lemma Conservation(p: Pass, from: nat)
    requires Sound(p, from) && NonePending(p)
    ensures Expected(p) == p.complete + p.incomplete + Omitted(p)
    ensures p.complete == p.full + p.bounded
    ensures p.incomplete == TrueIncomplete(p) + AcceptedUnavailable(p) && AcceptedUnavailable(p) >= 0
    ensures NoneOmitted(p) ==> Omitted(p) == 0
  {
    CountAll(p.statuses);
    WaitingIsOmitted(p.statuses);
    CountNone(p.statuses, (s: ChainStatus) => s.BudgetNotAttempted?);
    ActiveAreUnavailable(p.unavailable);
  }

  lemma {:induction false} ActiveAreUnavailable(unavailable: seq<(Date, bool)>)
    ensures BlocksCount(unavailable) <= |unavailable|
  {
    if unavailable != [] { ActiveAreUnavailable(unavailable[..|unavailable| - 1]); }
  }

  /** The status test: complete unless a detail remains or an active chain is gone. */
  lemma CleanIffNoTrueIncomplete(p: Pass, from: nat)
    requires Sound(p, from)
    ensures TrueIncomplete(p) == 0
       <==> p.details == [] && forall i :: 0 <= i < |p.statuses| ==> !p.statuses[i].ActiveChainUnavailable?
  {
    CountNone(p.statuses, IsActive);
  }
}
