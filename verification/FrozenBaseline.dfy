/** The first-knowledge baseline: evidence frozen at the instant a candidate became known. */
module FrozenBaseline {
  import opened Prelude
  import opened TradingCalendar
  import opened CanonicalDaily
  import opened OhlcCatalog
  import DealerArchive

  /** One stored contract row joined with the times of its raw payload. */
  datatype ContractRow = ContractRow(
    id: int, ticker: Ticker, expiration: Date, symbol: int, vendorAsOf: Instant,
    quoteAsOf: Option<Instant>, greeksAsOf: Option<Instant>,
    receivedAt: Instant, rawObservedAt: Option<Instant>)

  datatype Evidence = Evidence(payloads: seq<RawPayload>, contracts: seq<ContractRow>, surfaces: seq<DealerArchive.Archived>)

  predicate By(t: Option<Instant>, cutoff: Instant) { t.None? || t.value <= cutoff }

  // ---------------------------------------------------------------- the source bundle

  const SOURCES: seq<Endpoint> := [DailyOhlc, StockState, IvRank, TermStructure]

  predicate PayloadVisible(raw: RawPayload, ticker: Ticker, e: Endpoint, cutoff: Instant) {
    raw.ticker == ticker && raw.endpoint == e && raw.receivedAt <= cutoff && By(raw.observedAt, cutoff)
  }

  /** The latest received row. */
  function Latest(rows: seq<RawPayload>): Option<RawPayload> {
    if rows == [] then None
    else
      var best := Latest(rows[..|rows| - 1]);
      if best.None? || rows[|rows| - 1].receivedAt > best.value.receivedAt then Some(rows[|rows| - 1]) else best
  }

  function LatestVisible(payloads: seq<RawPayload>, ticker: Ticker, e: Endpoint, cutoff: Instant): Option<RawPayload> {
    Latest(Filter(payloads, (raw: RawPayload) => PayloadVisible(raw, ticker, e, cutoff)))
  }

  type Bundle = map<Endpoint, RawPayload>

  /** The archived source bundle: `isObject` tells whether a payload body is an object. */
  function BundleOf(payloads: seq<RawPayload>, isObject: RawPayload -> bool, ticker: Ticker, cutoff: Instant): Bundle {
    map e | e in SOURCES && LatestVisible(payloads, ticker, e, cutoff).Some?
            && isObject(LatestVisible(payloads, ticker, e, cutoff).value)
      :: LatestVisible(payloads, ticker, e, cutoff).value
  }

  method ArchivedSourceBundle(payloads: seq<RawPayload>, isObject: RawPayload -> bool, ticker: Ticker, cutoff: Instant)
    returns (bundle: Bundle)
    ensures bundle == BundleOf(payloads, isObject, ticker, cutoff)
  {
    bundle := map[];
    for i := 0 to |SOURCES|
      invariant forall e :: e in bundle <==> e in SOURCES[..i] && e in BundleOf(payloads, isObject, ticker, cutoff)
      invariant forall e :: e in bundle ==> bundle[e] == BundleOf(payloads, isObject, ticker, cutoff)[e]
    {
      assert SOURCES[..i + 1] == SOURCES[..i] + [SOURCES[i]];
      var raw := LatestVisible(payloads, ticker, SOURCES[i], cutoff);
      if raw.None? || !isObject(raw.value) {
        continue;
      }
      bundle := bundle[SOURCES[i] := raw.value];
    }
    assert SOURCES[..|SOURCES|] == SOURCES;
  }

  lemma {:induction false} LatestMeaning(rows: seq<RawPayload>)
    ensures rows == [] <==> Latest(rows).None?
    ensures rows != [] ==> Latest(rows).value in rows && forall x :: x in rows ==> x.receivedAt <= Latest(rows).value.receivedAt
  {
    if rows != [] {
      LatestMeaning(rows[..|rows| - 1]);
      assert rows == rows[..|rows| - 1] + [rows[|rows| - 1]];
    }
  }

  /** Every payload of the bundle was received and vendor-observed by the cutoff and is the latest
      such payload of its endpoint. */
  lemma BundleIsCausal(payloads: seq<RawPayload>, isObject: RawPayload -> bool, ticker: Ticker, cutoff: Instant, e: Endpoint)
    requires e in BundleOf(payloads, isObject, ticker, cutoff)
    ensures var raw := BundleOf(payloads, isObject, ticker, cutoff)[e];
      && raw in payloads && PayloadVisible(raw, ticker, e, cutoff) && isObject(raw)
      && forall x :: x in payloads && PayloadVisible(x, ticker, e, cutoff) ==> x.receivedAt <= raw.receivedAt
  {
    var visible := (raw: RawPayload) => PayloadVisible(raw, ticker, e, cutoff);
    FilterMembers(payloads, visible);
    LatestMeaning(Filter(payloads, visible));
  }

  // ---------------------------------------------------------------- the chain context

  predicate ContractVisible(row: ContractRow, ticker: Ticker, expiration: Date, cutoff: Instant) {
    && row.ticker == ticker && row.expiration == expiration
    && row.vendorAsOf <= cutoff && row.receivedAt <= cutoff
    && By(row.rawObservedAt, cutoff) && By(row.quoteAsOf, cutoff) && By(row.greeksAsOf, cutoff)
  }

  /** By symbol, then newest first. */
  predicate ContractLeq(a: ContractRow, b: ContractRow) {
    a.symbol < b.symbol || (a.symbol == b.symbol && a.vendorAsOf >= b.vendorAsOf)
  }

  function QueriedContracts(contracts: seq<ContractRow>, ticker: Ticker, expiration: Date, cutoff: Instant): seq<ContractRow> {
    StableSort(ContractLeq, Filter(contracts, (row: ContractRow) => ContractVisible(row, ticker, expiration, cutoff)))
  }

  type Chain = map<int, ContractRow>

  /** `setdefault` over rows: the first row of each symbol. */
  function Defaults(rows: seq<ContractRow>): Chain {
    if rows == [] then map[]
    else
      var chain, row := Defaults(rows[..|rows| - 1]), rows[|rows| - 1];
      if row.symbol in chain then chain else chain[row.symbol := row]
  }

  function ChainOf(contracts: seq<ContractRow>, ticker: Ticker, expiration: Date, cutoff: Instant): Chain {
    Defaults(QueriedContracts(contracts, ticker, expiration, cutoff))
  }

  method ChainContext(contracts: seq<ContractRow>, ticker: Ticker, expiration: Date, cutoff: Instant) returns (chain: Chain)
    ensures chain == ChainOf(contracts, ticker, expiration, cutoff)
  {
    var rows := QueriedContracts(contracts, ticker, expiration, cutoff);
    chain := map[];
    for i := 0 to |rows|
      invariant chain == Defaults(rows[..i])
    {
      assert rows[..i + 1][..i] == rows[..i];
      if rows[i].symbol !in chain {
        chain := chain[rows[i].symbol := rows[i]];
      }
    }
    assert rows[..|rows|] == rows;
  }

  lemma {:induction false} DefaultsMeaning(rows: seq<ContractRow>)
    requires SortedBy(ContractLeq, rows)
    ensures var chain := Defaults(rows);
      && (forall r :: r in rows ==> r.symbol in chain && chain[r.symbol].vendorAsOf >= r.vendorAsOf)
      && (forall s :: s in chain ==> chain[s] in rows && chain[s].symbol == s)
  {
    if rows != [] {
      var front, last := rows[..|rows| - 1], rows[|rows| - 1];
      DefaultsMeaning(front);
      assert forall r :: r in rows <==> r in front || r == last;
      var chain := Defaults(front);
      if last.symbol in chain {
        assert Defaults(rows) == chain;
        var k :| 0 <= k < |front| && front[k] == chain[last.symbol];
        assert ContractLeq(rows[k], rows[|front|]);
      } else {
        assert Defaults(rows) == chain[last.symbol := last];
      }
    }
  }

  /** For every symbol with a visible row the chain holds its newest visible row, and nothing else. */
  lemma ChainIsNewestVisible(contracts: seq<ContractRow>, ticker: Ticker, expiration: Date, cutoff: Instant)
    ensures var chain := ChainOf(contracts, ticker, expiration, cutoff);
      && (forall r :: r in contracts && ContractVisible(r, ticker, expiration, cutoff) ==>
            r.symbol in chain && chain[r.symbol].vendorAsOf >= r.vendorAsOf)
      && (forall s :: s in chain ==>
            chain[s] in contracts && chain[s].symbol == s && ContractVisible(chain[s], ticker, expiration, cutoff))
  {
    var visible := (row: ContractRow) => ContractVisible(row, ticker, expiration, cutoff);
    FilterMembers(contracts, visible);
    SortKeeps(ContractLeq, Filter(contracts, visible));
    SortDistinct(ContractLeq, Filter(contracts, visible));
    DefaultsMeaning(QueriedContracts(contracts, ticker, expiration, cutoff));
  }

  // ---------------------------------------------------------------- the frozen evidence

  datatype Clock = Clock(parse: Text -> Option<Date>, day: Instant -> Date)

  /** The canonical price series of the bundle's daily bars, cut at the cutoff's market date. */
  function PriceOf(bundle: Bundle, clock: Clock, cutoff: Instant): Series {
    if DailyOhlc in bundle && bundle[DailyOhlc].bars.Some?
    then Canonical(CutBars(bundle[DailyOhlc].bars.value, clock.parse, clock.day(cutoff)))
    else Canonical([])
  }

  datatype Context = Context(
    bundle: Bundle, chains: map<Date, Chain>, surface: Option<DealerArchive.Archived>, price: Series)

  function ChainsOf(contracts: seq<ContractRow>, ticker: Ticker, expirations: set<Date>, cutoff: Instant): map<Date, Chain> {
    map x | x in expirations :: ChainOf(contracts, ticker, x, cutoff)
  }

  /** Everything the evaluation reads at a cutoff. */
  function ContextAt(
      e: Evidence, isObject: RawPayload -> bool, clock: Clock, ticker: Ticker, expirations: set<Date>, cutoff: Instant): Context
  {
    var bundle := BundleOf(e.payloads, isObject, ticker, cutoff);
    Context(bundle,
            ChainsOf(e.contracts, ticker, expirations, cutoff),
            DealerArchive.BestAtOrBefore(e.surfaces, ticker, cutoff),
            PriceOf(bundle, clock, cutoff))
  }

  /** The part of the evidence recorded by an instant: payloads and chain rows received, surfaces
      captured. */
  function KnownPart(e: Evidence, cutoff: Instant): Evidence {
    Evidence(Filter(e.payloads, (raw: RawPayload) => raw.receivedAt <= cutoff),
             Filter(e.contracts, (row: ContractRow) => row.receivedAt <= cutoff),
             Filter(e.surfaces, (x: DealerArchive.Archived) => x.row.capturedAt <= cutoff))
  }

  lemma BundleReadsKnownPart(e: Evidence, isObject: RawPayload -> bool, ticker: Ticker, cutoff: Instant)
    ensures BundleOf(KnownPart(e, cutoff).payloads, isObject, ticker, cutoff) == BundleOf(e.payloads, isObject, ticker, cutoff)
  {
    forall s
      ensures LatestVisible(KnownPart(e, cutoff).payloads, ticker, s, cutoff) == LatestVisible(e.payloads, ticker, s, cutoff)
    {
      FilterRefines(e.payloads, (raw: RawPayload) => raw.receivedAt <= cutoff, (raw: RawPayload) => PayloadVisible(raw, ticker, s, cutoff));
    }
  }

  lemma ChainsReadKnownPart(e: Evidence, ticker: Ticker, expirations: set<Date>, cutoff: Instant)
    ensures ChainsOf(KnownPart(e, cutoff).contracts, ticker, expirations, cutoff) == ChainsOf(e.contracts, ticker, expirations, cutoff)
  {
    forall x | x in expirations
      ensures ChainOf(KnownPart(e, cutoff).contracts, ticker, x, cutoff) == ChainOf(e.contracts, ticker, x, cutoff)
    {
      FilterRefines(e.contracts, (row: ContractRow) => row.receivedAt <= cutoff,
                    (row: ContractRow) => ContractVisible(row, ticker, x, cutoff));
    }
  }

  lemma SurfaceReadsKnownPart(e: Evidence, ticker: Ticker, cutoff: Instant)
    ensures DealerArchive.BestAtOrBefore(KnownPart(e, cutoff).surfaces, ticker, cutoff)
         == DealerArchive.BestAtOrBefore(e.surfaces, ticker, cutoff)
  {
    FilterRefines(e.surfaces, (x: DealerArchive.Archived) => x.row.capturedAt <= cutoff,
                  (x: DealerArchive.Archived) => DealerArchive.VisibleAt(x, ticker, cutoff));
  }

  /** The context reads only the part of the evidence recorded by the cutoff. */
  lemma ContextReadsKnownPart(
      e: Evidence, isObject: RawPayload -> bool, clock: Clock, ticker: Ticker, expirations: set<Date>, cutoff: Instant)
    ensures ContextAt(KnownPart(e, cutoff), isObject, clock, ticker, expirations, cutoff)
         == ContextAt(e, isObject, clock, ticker, expirations, cutoff)
  {
    BundleReadsKnownPart(e, isObject, ticker, cutoff);
    SurfaceReadsKnownPart(e, ticker, cutoff);
    ChainsReadKnownPart(e, ticker, expirations, cutoff);
  }

  /** No lookahead: two stores that agree on everything recorded by the cutoff give the same
      context. */
  lemma NoLookahead(
      a: Evidence, b: Evidence, isObject: RawPayload -> bool, clock: Clock, ticker: Ticker, expirations: set<Date>, cutoff: Instant)
    requires KnownPart(a, cutoff) == KnownPart(b, cutoff)
    ensures ContextAt(a, isObject, clock, ticker, expirations, cutoff) == ContextAt(b, isObject, clock, ticker, expirations, cutoff)
  {
    ContextReadsKnownPart(a, isObject, clock, ticker, expirations, cutoff);
    ContextReadsKnownPart(b, isObject, clock, ticker, expirations, cutoff);
  }

  /** Bars of a received payload that are dated after the cutoff's market date, or not provably
      dated, cannot reach the price series: it is the full canonical series cut at that date. */
  lemma PriceIgnoresLaterBars(bundle: Bundle, clock: Clock, cutoff: Instant)
    requires DailyOhlc in bundle && bundle[DailyOhlc].bars.Some?
    ensures var full := Canonical(bundle[DailyOhlc].bars.value);
      var keep := t => OnOrBefore(clock.parse, t, clock.day(cutoff));
      PriceOf(bundle, clock, cutoff)
      == Series(CutBars(full.observations, clock.parse, clock.day(cutoff)), Filter(full.missing, keep), Filter(full.ambiguous, keep))
  {
    CutCommutesWithCanonical(bundle[DailyOhlc].bars.value, clock.parse, clock.day(cutoff));
  }
}
