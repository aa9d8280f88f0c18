/** Parsing of one archived option chain: row issues, coverage classification, contracts. */
module ChainParser {
  import opened Prelude
  import opened TradingCalendar

  datatype Right = Call | Put

  /** One raw row: absent or unparsable fields are None, and so is a non-finite open interest. */
  datatype ChainRow =
    | NotObject
    | ChainRow(symbol: Option<int>, expiration: Option<Date>, right: Option<Right>,
               strike: Option<real>, openInterest: Option<real>, rowAsOf: Option<Date>)

  /** `contracts` is None when the list is missing or not a list. */
  datatype ChainData = ChainData(contracts: Option<seq<ChainRow>>, total: Option<int>, asOf: Option<Date>)

  /** `data` is None when the payload or its data is not an object. */
  datatype ChainPayload = ChainPayload(data: Option<ChainData>, truncated: Option<bool>)

  datatype RowIssue =
    | RowNotObject | MissingContractSymbol | ExpirationMismatch | InvalidRight
    | InvalidStrike | InvalidOpenInterest | DuplicateContractSymbol

  datatype ChainReason = FullComplete | CompleteBoundedSnapshot | InvalidResponse | Truncated | RowCountMismatch

  datatype Contract = Contract(symbol: int, expiration: Date, right: Right, strike: real, openInterest: nat, asOf: Option<Date>)

  datatype CompleteChain = CompleteChain(
    reason: ChainReason, invalidRows: map<RowIssue, nat>, contracts: seq<Contract>,
    returned: nat, total: Option<int>, asOf: Option<Date>)
  {
    predicate Complete() { reason == FullComplete || reason == CompleteBoundedSnapshot }
  }

  const VENDOR_CHAIN_CONTRACT_LIMIT := 400

  function RowIssueOf(row: ChainRow, expiration: Date): Option<RowIssue> {
    if row.NotObject? then Some(RowNotObject)
    else if row.symbol.None? then Some(MissingContractSymbol)
    else if row.expiration != Some(expiration) then Some(ExpirationMismatch)
    else if row.right.None? then Some(InvalidRight)
    else if row.strike.None? || row.strike.value <= 0.0 then Some(InvalidStrike)
    else if row.openInterest.None? || row.openInterest.value < 0.0
            || row.openInterest.value != row.openInterest.value.Floor as real then Some(InvalidOpenInterest)
    else None
  }

  predicate ValidRow(row: ChainRow, expiration: Date) { RowIssueOf(row, expiration).None? }

  function RowsOf(payload: ChainPayload): seq<ChainRow> {
    if payload.data.Some? && payload.data.value.contracts.Some? then payload.data.value.contracts.value else []
  }

  function TotalOf(payload: ChainPayload): Option<int> {
    if payload.data.Some? then payload.data.value.total else None
  }

  predicate SameSymbol(a: ChainRow, b: ChainRow, expiration: Date) {
    ValidRow(a, expiration) && ValidRow(b, expiration) && a.symbol == b.symbol
  }

  /** No valid row repeats the symbol of an earlier valid row. */
  predicate SymbolsDistinct(rows: seq<ChainRow>, expiration: Date) {
    forall i, j :: 0 <= i < j < |rows| ==> !SameSymbol(rows[i], rows[j], expiration)
  }

  predicate AllValid(rows: seq<ChainRow>, expiration: Date) {
    forall i :: 0 <= i < |rows| ==> ValidRow(rows[i], expiration)
  }

  /** The reference classification of a response. */
  function Classify(payload: ChainPayload, expiration: Date): ChainReason {
    var rows, total := RowsOf(payload), TotalOf(payload);
    if payload.data.None? || payload.data.value.contracts.None? then InvalidResponse
    else if payload.truncated == Some(true) then Truncated
    else if payload.truncated.None? || total.None? || total.value < 0 then InvalidResponse
    else if !AllValid(rows, expiration) then InvalidResponse
    else if !SymbolsDistinct(rows, expiration) then RowCountMismatch
    else if |rows| == total.value then FullComplete
    else if total.value > |rows| && |rows| == VENDOR_CHAIN_CONTRACT_LIMIT then CompleteBoundedSnapshot
    else RowCountMismatch
  }

  function ContractOf(row: ChainRow, expiration: Date): Contract
    requires ValidRow(row, expiration)
  {
    Contract(row.symbol.value, expiration, row.right.value, row.strike.value, row.openInterest.value.Floor, row.rowAsOf)
  }

  function ContractsOf(rows: seq<ChainRow>, expiration: Date): (r: seq<Contract>)
    requires AllValid(rows, expiration)
  {
    seq(|rows|, i requires 0 <= i < |rows| => ContractOf(rows[i], expiration))
  }

  function IssueCount(rows: seq<ChainRow>, expiration: Date, issue: RowIssue): nat {
    |Filter(rows, row => RowIssueOf(row, expiration) == Some(issue))|
  }

  function CountOf(m: map<RowIssue, nat>, issue: RowIssue): nat {
    if issue in m then m[issue] else 0
  }

  lemma {:induction false} IssuesVanishIff(rows: seq<ChainRow>, expiration: Date)
    ensures AllValid(rows, expiration) <==> forall issue :: IssueCount(rows, expiration, issue) == 0
  {
    if rows != [] {
      var front, last := rows[..|rows| - 1], rows[|rows| - 1];
      IssuesVanishIff(front, expiration);
      if !ValidRow(last, expiration) {
        assert IssueCount(rows, expiration, RowIssueOf(last, expiration).value) > 0;
      } else {
        assert forall issue :: IssueCount(rows, expiration, issue) == IssueCount(front, expiration, issue);
      }
    }
  }

  /** A valid row before `i` carries this symbol. */
  predicate SeenSymbol(rows: seq<ChainRow>, i: nat, expiration: Date, symbol: int)
    requires i <= |rows|
  {
    exists j :: 0 <= j < i && ValidRow(rows[j], expiration) && rows[j].symbol == Some(symbol)
  }

  lemma DistinctStep(rows: seq<ChainRow>, i: nat, expiration: Date)
    requires i < |rows|
    ensures SymbolsDistinct(rows[..i + 1], expiration)
       <==> SymbolsDistinct(rows[..i], expiration)
            && !(ValidRow(rows[i], expiration) && SeenSymbol(rows, i, expiration, rows[i].symbol.value))
  {
    var front, longer := rows[..i], rows[..i + 1];
    assert forall j :: 0 <= j < i ==> longer[j] == front[j] == rows[j];
    assert longer[i] == rows[i];
    if ValidRow(rows[i], expiration) && SeenSymbol(rows, i, expiration, rows[i].symbol.value) {
      var j :| 0 <= j < i && ValidRow(rows[j], expiration) && rows[j].symbol == Some(rows[i].symbol.value);
      assert SameSymbol(longer[j], longer[i], expiration);
    }
    if SymbolsDistinct(longer, expiration) {
      forall a, b | 0 <= a < b < i
        ensures !SameSymbol(front[a], front[b], expiration)
      {
        assert !SameSymbol(longer[a], longer[b], expiration);
      }
    }
  }

  type IssueCounts = map<RowIssue, nat>

  /** `reasons` counts the issues of `rows`, and names only issues that occur. */
  ghost predicate Tallies(reasons: IssueCounts, rows: seq<ChainRow>, expiration: Date) {
    && (forall issue :: CountOf(reasons, issue) == IssueCount(rows, expiration, issue))
    && (forall issue :: issue in reasons ==> reasons[issue] > 0 && issue != DuplicateContractSymbol)
  }

  function Counted(reasons: IssueCounts, issue: Option<RowIssue>): IssueCounts {
    if issue.None? then reasons else reasons[issue.value := CountOf(reasons, issue.value) + 1]
  }

  lemma TallyStep(reasons: IssueCounts, front: seq<ChainRow>, row: ChainRow, expiration: Date)
    requires Tallies(reasons, front, expiration)
    ensures Tallies(Counted(reasons, RowIssueOf(row, expiration)), front + [row], expiration)
  {
    var issue, counted := RowIssueOf(row, expiration), Counted(reasons, RowIssueOf(row, expiration));
    forall other
      ensures CountOf(counted, other) == IssueCount(front + [row], expiration, other)
    {
      IssueCountStep(front, row, expiration, other);
      assert CountOf(counted, other) == CountOf(reasons, other) + (if issue == Some(other) then 1 else 0);
    }
  }

  lemma IssueCountStep(front: seq<ChainRow>, row: ChainRow, expiration: Date, issue: RowIssue)
    ensures IssueCount(front + [row], expiration, issue)
         == IssueCount(front, expiration, issue) + (if RowIssueOf(row, expiration) == Some(issue) then 1 else 0)
  {
    assert (front + [row])[..|front|] == front;
  }

  function ValidRows(rows: seq<ChainRow>, expiration: Date): seq<ChainRow> {
    Filter(rows, row => ValidRow(row, expiration))
  }

  /** The different symbols of the valid rows. */
  function ValidSymbols(rows: seq<ChainRow>, expiration: Date): set<int> {
    set row | row in rows && ValidRow(row, expiration) :: row.symbol.value
  }

  lemma SymbolsStep(front: seq<ChainRow>, row: ChainRow, expiration: Date)
    ensures ValidSymbols(front + [row], expiration)
         == ValidSymbols(front, expiration) + (if ValidRow(row, expiration) then {row.symbol.value} else {})
    ensures |ValidRows(front + [row], expiration)| == |ValidRows(front, expiration)| + (if ValidRow(row, expiration) then 1 else 0)
  {
    var rows := front + [row];
    assert rows[..|front|] == front;
    assert forall r :: r in rows <==> r in front || r == row;
  }

  lemma SeenIffHeld(rows: seq<ChainRow>, i: nat, expiration: Date, symbol: int)
    requires i <= |rows|
    ensures symbol in ValidSymbols(rows[..i], expiration) <==> SeenSymbol(rows, i, expiration, symbol)
  {
    if SeenSymbol(rows, i, expiration, symbol) {
      var j :| 0 <= j < i && ValidRow(rows[j], expiration) && rows[j].symbol == Some(symbol);
      assert rows[..i][j] in rows[..i];
    }
    if symbol in ValidSymbols(rows[..i], expiration) {
      var row :| row in rows[..i] && ValidRow(row, expiration) && row.symbol.value == symbol;
      var j :| 0 <= j < i && rows[..i][j] == row;
      assert rows[j].symbol == Some(symbol);
    }
  }

  /** What the first loop holds after the rows `front`. */
  ghost predicate SoFar(front: seq<ChainRow>, expiration: Date, reasons: IssueCounts, symbols: set<int>, duplicates: nat) {
    && Tallies(reasons, front, expiration) && symbols == ValidSymbols(front, expiration)
    && duplicates + |symbols| == |ValidRows(front, expiration)|
    && (duplicates == 0 <==> SymbolsDistinct(front, expiration))
  }

  lemma SoFarStep(rows: seq<ChainRow>, i: nat, expiration: Date, reasons: IssueCounts, symbols: set<int>, duplicates: nat)
    requires i < |rows| && SoFar(rows[..i], expiration, reasons, symbols, duplicates)
    ensures var issue := RowIssueOf(rows[i], expiration);
      if issue.Some? then SoFar(rows[..i + 1], expiration, Counted(reasons, issue), symbols, duplicates)
      else
        var symbol := rows[i].symbol.value;
        SoFar(rows[..i + 1], expiration, reasons, symbols + {symbol}, duplicates + if symbol in symbols then 1 else 0)
  {
    assert rows[..i + 1] == rows[..i] + [rows[i]];
    TallyStep(reasons, rows[..i], rows[i], expiration);
    DistinctStep(rows, i, expiration);
    SymbolsStep(rows[..i], rows[i], expiration);
    if ValidRow(rows[i], expiration) {
      SeenIffHeld(rows, i, expiration, rows[i].symbol.value);
      assert rows[i].symbol.value in symbols ==> symbols + {rows[i].symbol.value} == symbols;
    }
  }

  lemma SoFarDone(rows: seq<ChainRow>, expiration: Date, reasons: IssueCounts, symbols: set<int>, duplicates: nat)
    requires SoFar(rows[..|rows|], expiration, reasons, symbols, duplicates)
    ensures Tallies(reasons, rows, expiration) && (duplicates == 0 <==> SymbolsDistinct(rows, expiration))
    ensures duplicates == |ValidRows(rows, expiration)| - |ValidSymbols(rows, expiration)|
  {
    assert rows[..|rows|] == rows;
  }

  lemma SoFarStart(expiration: Date)
    ensures SoFar([], expiration, map[], {}, 0)
  {
  }

  /** First loop: issue counts, and the valid rows whose symbol came before. */
  method CountIssues(rows: seq<ChainRow>, expiration: Date) returns (reasons: IssueCounts, duplicates: nat)
    ensures Tallies(reasons, rows, expiration)
    ensures duplicates == 0 <==> SymbolsDistinct(rows, expiration)
    ensures duplicates == |ValidRows(rows, expiration)| - |ValidSymbols(rows, expiration)|
  {
    reasons, duplicates := map[], 0;
    var symbols: set<int> := {};
    SoFarStart(expiration);
    assert rows[..0] == [];
    for i := 0 to |rows|
      invariant SoFar(rows[..i], expiration, reasons, symbols, duplicates)
    {
      SoFarStep(rows, i, expiration, reasons, symbols, duplicates);
      var issue := RowIssueOf(rows[i], expiration);
      reasons := Counted(reasons, issue);
      if issue.None? {
        var symbol := rows[i].symbol.value;
        if symbol in symbols { duplicates := duplicates + 1; }
        symbols := symbols + {symbol};
      }
    }
    SoFarDone(rows, expiration, reasons, symbols, duplicates);
  }

  method ParseCompleteChain(payload: ChainPayload, expiration: Date) returns (chain: CompleteChain)
    ensures chain == Parse(payload, expiration).(invalidRows := chain.invalidRows)
    ensures forall issue :: issue != DuplicateContractSymbol ==>
      CountOf(chain.invalidRows, issue) == IssueCount(RowsOf(payload), expiration, issue)
    ensures DuplicateContractSymbol in chain.invalidRows <==> !SymbolsDistinct(RowsOf(payload), expiration)
    ensures CountOf(chain.invalidRows, DuplicateContractSymbol)
         == |ValidRows(RowsOf(payload), expiration)| - |ValidSymbols(RowsOf(payload), expiration)|
  {
    var rows, total := RowsOf(payload), TotalOf(payload);
    var reasons, duplicates := CountIssues(rows, expiration);
    IssuesVanishIff(rows, expiration);
    if reasons != map[] {
      var issue :| issue in reasons;
      assert CountOf(reasons, issue) > 0;
    }
    var reason;
    if payload.data.None? || payload.data.value.contracts.None? {
      reason := InvalidResponse;
    } else if payload.truncated == Some(true) {
      reason := Truncated;
    } else if payload.truncated.None? || total.None? || total.value < 0 {
      reason := InvalidResponse;
    } else if reasons != map[] {
      reason := InvalidResponse;
    } else if duplicates > 0 {
      reason := RowCountMismatch;
    } else if |rows| == total.value {
      reason := FullComplete;
    } else if total.value > |rows| && |rows| == VENDOR_CHAIN_CONTRACT_LIMIT {
      reason := CompleteBoundedSnapshot;
    } else {
      reason := RowCountMismatch;
    }
    var contracts: seq<Contract> := [];
    if reason == FullComplete || reason == CompleteBoundedSnapshot {
      for i := 0 to |rows|
        invariant contracts == ContractsOf(rows, expiration)[..i]
      {
        contracts := contracts + [ContractOf(rows[i], expiration)];
      }
    }
    if duplicates > 0 { reasons := reasons[DuplicateContractSymbol := duplicates]; }
    chain := CompleteChain(reason, reasons, contracts, |rows|, total, if payload.data.Some? then payload.data.value.asOf else None);
  }

  /** The parsed chain, apart from its issue counts. */
  function Parse(payload: ChainPayload, expiration: Date): CompleteChain {
    var rows, reason := RowsOf(payload), Classify(payload, expiration);
    CompleteChain(reason, map[],
      if reason == FullComplete || reason == CompleteBoundedSnapshot then ContractsOf(rows, expiration) else [],
      |rows|, TotalOf(payload), if payload.data.Some? then payload.data.value.asOf else None)
  }

  /** A complete chain holds one contract per returned row, for the requested expiration, with
      distinct symbols; it is full exactly when the vendor's total is reached and bounded exactly
      when the vendor's 400-contract product is exhausted below its total. */
  lemma CompleteChainMeaning(payload: ChainPayload, expiration: Date)
    ensures var chain := Parse(payload, expiration);
      && (chain.Complete() ==>
            && |chain.contracts| == chain.returned && chain.total.Some? && chain.returned <= chain.total.value
            && (chain.reason == FullComplete <==> chain.returned == chain.total.value)
            && (chain.reason == CompleteBoundedSnapshot <==> chain.returned == 400 < chain.total.value)
            && (forall i :: 0 <= i < |chain.contracts| ==>
                  chain.contracts[i].expiration == expiration && chain.contracts[i].strike > 0.0)
            && (forall i, j :: 0 <= i < j < |chain.contracts| ==> chain.contracts[i].symbol != chain.contracts[j].symbol))
      && (!chain.Complete() ==> chain.contracts == [])
  {
    var chain, rows := Parse(payload, expiration), RowsOf(payload);
    if chain.Complete() {
      forall i, j | 0 <= i < j < |chain.contracts|
        ensures chain.contracts[i].symbol != chain.contracts[j].symbol
      {
        assert !SameSymbol(rows[i], rows[j], expiration);
      }
    }
  }

  /** The archive keeps a recovered chain only when its open interest is for the expected date. */
  predicate VendorDateMatches(chain: CompleteChain, expected: Date) {
    && chain.asOf == Some(expected)
    && forall i :: 0 <= i < |chain.contracts| ==> chain.contracts[i].asOf.None? || chain.contracts[i].asOf == Some(expected)
  }
}
