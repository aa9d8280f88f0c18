/** Preserved vendor payloads and the as-of catalogue of raw regular closes built from them. */
module OhlcCatalog {
  import opened Prelude
  import opened TradingCalendar
  import opened CanonicalDaily

  datatype Endpoint = DailyOhlc | StockState | IvRank | TermStructure | OtherEndpoint(code: int)

  /** One immutable raw payload row. `endpoint` is the endpoint of the payload's own ticker and
      `bars` holds the object rows of its bar list, None when there is no such list. */
  datatype RawPayload = RawPayload(
    id: int, ticker: Ticker, endpoint: Endpoint, receivedAt: Instant, observedAt: Option<Instant>,
    bars: Option<seq<Bar>>, body: int)

  datatype MissingReason =
    | AmbiguousRegularSessionRows
    | NoRegularSessionRow
    | NoCanonicalRegularSessionRow
    | InvalidOrMissingRawClose
    | NoPreservedRegularClose

  datatype PreservedClose = PreservedClose(
    ticker: Ticker, session: Date, close: Option<real>, missingReason: Option<MissingReason>,
    receivedAt: Instant, rawId: int, text: Text)

  ghost predicate UniqueIds(payloads: seq<RawPayload>) {
    forall i, j :: 0 <= i < j < |payloads| ==> payloads[i].id != payloads[j].id
  }

  // ---------------------------------------------------------------- one payload, one date

  function PositiveDecimal(x: Option<real>): Option<real> {
    if x.Some? && x.value > 0.0 then x else None
  }

  function SelectedBar(observations: seq<Bar>, t: Text): Option<Bar> {
    if observations == [] then None
    else if Dated(observations[|observations| - 1], t) then Some(observations[|observations| - 1])
    else SelectedBar(observations[..|observations| - 1], t)
  }

  function EntryFor(raw: RawPayload, t: Text, session: Date): PreservedClose
    requires raw.bars.Some?
  {
    var canonical := Canonical(raw.bars.value);
    var bar := SelectedBar(canonical.observations, t);
    var close := if bar.Some? then PositiveDecimal(bar.value.close) else None;
    var reason :=
      if t in canonical.ambiguous then Some(AmbiguousRegularSessionRows)
      else if t in canonical.missing then Some(NoRegularSessionRow)
      else if bar.None? then Some(NoCanonicalRegularSessionRow)
      else if close.None? then Some(InvalidOrMissingRawClose)
      else None;
    PreservedClose(raw.ticker, session, if reason.None? then close else None, reason,
                   raw.receivedAt, raw.id, t)
  }

  lemma {:induction false} SelectedBarFacts(observations: seq<Bar>, t: Text)
    ensures match SelectedBar(observations, t)
      case Some(b) => b in observations && Dated(b, t)
      case None => forall b :: b in observations ==> !Dated(b, t)
  {
    if observations != [] {
      SelectedBarFacts(observations[..|observations| - 1], t);
      assert observations == observations[..|observations| - 1] + [observations[|observations| - 1]];
    }
  }

  /** A listed date is ambiguous, missing or has exactly one canonical row: the catalogue's
      "no canonical row" reason never occurs, and a close is available exactly when the date has
      one regular row and that row has a positive close. */
  lemma EntryMeaning(raw: RawPayload, t: Text, session: Date)
    requires raw.bars.Some? && t in SortedDates(raw.bars.value)
    ensures var e, rows := EntryFor(raw, t, session), RegularRows(raw.bars.value, t);
      && e.missingReason != Some(NoCanonicalRegularSessionRow)
      && (e.close.Some? <==> e.missingReason.None?)
      && (e.close.Some? <==> |rows| == 1 && rows[0].close.Some? && rows[0].close.value > 0.0)
      && (e.close.Some? ==> e.close == rows[0].close)
  {
    SeriesAt(raw.bars.value, t);
  }

  /** Where a listed date stands in the canonical series. */
  lemma SeriesAt(bars: seq<Bar>, t: Text)
    requires t in SortedDates(bars)
    ensures var series, rows := Canonical(bars), RegularRows(bars, t);
      && (t in series.missing <==> rows == []) && (t in series.ambiguous <==> |rows| > 1)
      && (|rows| == 1 ==> SelectedBar(series.observations, t) == Some(rows[0]))
  {
    var dates, series, rows := SortedDates(bars), Canonical(bars), RegularRows(bars, t);
    FilterMembers(dates, t => RegularRows(bars, t) == []);
    FilterMembers(dates, t => |RegularRows(bars, t)| > 1);
    if |rows| == 1 {
      SortedDatesFacts(bars);
      SingleRowsFacts(bars, dates);
      SelectedBarFacts(series.observations, t);
      RegularRowsDated(bars, t);
      assert rows == [rows[0]] && rows[0] in rows && rows[0] in series.observations;
    }
  }

  // ---------------------------------------------------------------- the history

  predicate Matches(parse: Text -> Option<Date>, raw: RawPayload, ticker: Ticker, session: Date, t: Text) {
    && raw.endpoint == DailyOhlc && raw.bars.Some? && raw.ticker == ticker && parse(t) == Some(session)
  }

  /** Payload `raw` lists a bar of `ticker` whose date text `t` parses to `session`. */
  predicate Lists(parse: Text -> Option<Date>, raw: RawPayload, ticker: Ticker, session: Date, t: Text) {
    Matches(parse, raw, ticker, session, t) && t in SortedDates(raw.bars.value)
  }

  function EntryAt(parse: Text -> Option<Date>, raw: RawPayload, ticker: Ticker, session: Date, t: Text)
    : seq<PreservedClose>
  {
    if Matches(parse, raw, ticker, session, t) then [EntryFor(raw, t, session)] else []
  }

  function EntriesFrom(parse: Text -> Option<Date>, raw: RawPayload, ticker: Ticker, session: Date, ts: seq<Text>)
    : seq<PreservedClose>
  {
    if ts == [] then []
    else EntriesFrom(parse, raw, ticker, session, ts[..|ts| - 1]) + EntryAt(parse, raw, ticker, session, ts[|ts| - 1])
  }

  /** What one payload adds to the history of one (ticker, session). */
  function EntriesOf(parse: Text -> Option<Date>, raw: RawPayload, ticker: Ticker, session: Date): seq<PreservedClose> {
    if raw.bars.None? then [] else EntriesFrom(parse, raw, ticker, session, SortedDates(raw.bars.value))
  }

  function HistoryOf(parse: Text -> Option<Date>, payloads: seq<RawPayload>, ticker: Ticker, session: Date)
    : seq<PreservedClose>
  {
    if payloads == [] then []
    else
      HistoryOf(parse, payloads[..|payloads| - 1], ticker, session)
      + EntriesOf(parse, payloads[|payloads| - 1], ticker, session)
  }

  predicate PayloadLeq(a: RawPayload, b: RawPayload) {
    a.receivedAt < b.receivedAt || (a.receivedAt == b.receivedAt && a.id <= b.id)
  }

  predicate EntryLeq(a: PreservedClose, b: PreservedClose) {
    a.receivedAt < b.receivedAt || (a.receivedAt == b.receivedAt && a.rawId <= b.rawId)
  }

  function Rows(parse: Text -> Option<Date>, payloads: seq<RawPayload>, ticker: Ticker, session: Date)
    : seq<PreservedClose>
  {
    StableSort(EntryLeq, HistoryOf(parse, StableSort(PayloadLeq, payloads), ticker, session))
  }

  function LastReceivedBy(rows: seq<PreservedClose>, cutoff: Instant): Option<PreservedClose> {
    var eligible := Filter(rows, (e: PreservedClose) => e.receivedAt <= cutoff);
    if eligible == [] then None else Some(eligible[|eligible| - 1])
  }

  function Lookup(parse: Text -> Option<Date>, payloads: seq<RawPayload>, ticker: Ticker, session: Date, asOf: Instant)
    : Option<PreservedClose>
  {
    LastReceivedBy(Rows(parse, payloads, ticker, session), asOf)
  }

  type History = map<(Ticker, Date), seq<PreservedClose>>

  function At(history: History, ticker: Ticker, session: Date): seq<PreservedClose> {
    if (ticker, session) in history then history[(ticker, session)] else []
  }

  function IngestDates(parse: Text -> Option<Date>, raw: RawPayload, ts: seq<Text>, history: History): History
    requires raw.bars.Some?
  {
    if ts == [] then history
    else
      var h, t := IngestDates(parse, raw, ts[..|ts| - 1], history), ts[|ts| - 1];
      if parse(t).None? then h
      else
        var session := parse(t).value;
        h[(raw.ticker, session) := At(h, raw.ticker, session) + [EntryFor(raw, t, session)]]
  }

  function IngestPayload(parse: Text -> Option<Date>, raw: RawPayload, history: History): History {
    if raw.endpoint != DailyOhlc || raw.bars.None? then history
    else IngestDates(parse, raw, SortedDates(raw.bars.value), history)
  }

  function IngestAll(parse: Text -> Option<Date>, payloads: seq<RawPayload>): History {
    if payloads == [] then map[]
    else IngestPayload(parse, payloads[|payloads| - 1], IngestAll(parse, payloads[..|payloads| - 1]))
  }

  function SortRows(history: History): History {
    map key | key in history :: StableSort(EntryLeq, history[key])
  }

  /** The finished history dictionary of a list of payloads. */
  function BuildHistory(parse: Text -> Option<Date>, payloads: seq<RawPayload>): History {
    SortRows(IngestAll(parse, StableSort(PayloadLeq, payloads)))
  }

  function LookupIn(history: History, ticker: Ticker, session: Date, asOf: Instant): Option<PreservedClose> {
    LastReceivedBy(At(history, ticker, session), asOf)
  }

  /** Reading the built history is `Lookup`. */
  lemma LookupInBuilt(
      parse: Text -> Option<Date>, payloads: seq<RawPayload>, ticker: Ticker, session: Date, asOf: Instant)
    ensures LookupIn(BuildHistory(parse, payloads), ticker, session, asOf)
         == Lookup(parse, payloads, ticker, session, asOf)
  {
    IngestAllAt(parse, StableSort(PayloadLeq, payloads), ticker, session);
  }

  lemma {:induction false} IngestDatesAt(
      parse: Text -> Option<Date>, raw: RawPayload, ts: seq<Text>, history: History, ticker: Ticker, session: Date)
    requires raw.endpoint == DailyOhlc && raw.bars.Some?
    ensures At(IngestDates(parse, raw, ts, history), ticker, session)
         == At(history, ticker, session) + EntriesFrom(parse, raw, ticker, session, ts)
  {
    if ts != [] {
      IngestDatesAt(parse, raw, ts[..|ts| - 1], history, ticker, session);
    }
  }

  lemma {:induction false} IngestAllAt(
      parse: Text -> Option<Date>, payloads: seq<RawPayload>, ticker: Ticker, session: Date)
    ensures At(IngestAll(parse, payloads), ticker, session) == HistoryOf(parse, payloads, ticker, session)
  {
    if payloads != [] {
      var front, last := payloads[..|payloads| - 1], payloads[|payloads| - 1];
      IngestAllAt(parse, front, ticker, session);
      if last.bars.Some? {
        if last.endpoint == DailyOhlc {
          IngestDatesAt(parse, last, SortedDates(last.bars.value), IngestAll(parse, front), ticker, session);
        } else {
          NothingListed(parse, last, ticker, session, SortedDates(last.bars.value));
        }
      }
    }
  }

  /** The catalogue object: its history dictionary is filled payload by payload. */
  class PreservedOhlcCatalog {
    const parse: Text -> Option<Date>
    var history: History

    constructor (parse: Text -> Option<Date>, payloads: seq<RawPayload>)
      ensures this.parse == parse
      ensures history == BuildHistory(parse, payloads)
    {
      this.parse := parse;
      history := map[];
      new;
      var sorted := StableSort(PayloadLeq, payloads);
      for i := 0 to |sorted|
        invariant history == IngestAll(parse, sorted[..i])
      {
        assert sorted[..i + 1][..i] == sorted[..i];
        Ingest(sorted[i]);
      }
      assert sorted[..|sorted|] == sorted;
      history := map key | key in history :: StableSort(EntryLeq, history[key]);
    }

    method Ingest(raw: RawPayload)
      modifies this`history
      ensures history == IngestPayload(parse, raw, old(history))
    {
      if raw.endpoint != DailyOhlc || raw.bars.None? {
        return;
      }
      var dates := SortedDates(raw.bars.value);
      for i := 0 to |dates|
        invariant history == IngestDates(parse, raw, dates[..i], old(history))
      {
        assert dates[..i + 1][..i] == dates[..i];
        if parse(dates[i]).Some? {
          var session := parse(dates[i]).value;
          history := history[(raw.ticker, session) :=
            At(history, raw.ticker, session) + [EntryFor(raw, dates[i], session)]];
        }
      }
      assert dates[..|dates|] == dates;
    }
  }

  lemma {:induction false} NothingListed(
      parse: Text -> Option<Date>, raw: RawPayload, ticker: Ticker, session: Date, ts: seq<Text>)
    requires raw.endpoint != DailyOhlc
    ensures EntriesFrom(parse, raw, ticker, session, ts) == []
  {
    if ts != [] { NothingListed(parse, raw, ticker, session, ts[..|ts| - 1]); }
  }

  // ---------------------------------------------------------------- the plain-scan reference

  /** Payload time, then payload id, then date text. */
  predicate KeyLeq(p: RawPayload, t: Text, q: RawPayload, u: Text) {
    || p.receivedAt < q.receivedAt
    || (p.receivedAt == q.receivedAt && p.id < q.id)
    || (p.receivedAt == q.receivedAt && p.id == q.id && t <= u)
  }

  /** `r` is the entry of the greatest (received, id) payload that lists the session and was
      received by the cutoff, and None when there is no such payload. */
  ghost predicate IsLatest(parse: Text -> Option<Date>, payloads: seq<RawPayload>, ticker: Ticker, session: Date,
                           cutoff: Instant, r: Option<PreservedClose>) {
    match r
    case None => forall p, t :: p in payloads && Lists(parse, p, ticker, session, t) ==> cutoff < p.receivedAt
    case Some(e) =>
      exists p, t ::
        && p in payloads && Lists(parse, p, ticker, session, t) && p.receivedAt <= cutoff
        && e == EntryFor(p, t, session)
        && forall q, u :: q in payloads && Lists(parse, q, ticker, session, u) && q.receivedAt <= cutoff
             ==> KeyLeq(q, u, p, t)
  }

  predicate FullLeq(a: PreservedClose, b: PreservedClose) {
    || a.receivedAt < b.receivedAt
    || (a.receivedAt == b.receivedAt && a.rawId < b.rawId)
    || (a.receivedAt == b.receivedAt && a.rawId == b.rawId && a.text <= b.text)
  }

  ghost predicate FromDates(parse: Text -> Option<Date>, raw: RawPayload, ticker: Ticker, session: Date,
                            ts: seq<Text>, e: PreservedClose) {
    raw.bars.Some? && e.text in ts && Matches(parse, raw, ticker, session, e.text) && e == EntryFor(raw, e.text, session)
  }

  lemma {:induction false} EntriesFromFacts(
      parse: Text -> Option<Date>, raw: RawPayload, ticker: Ticker, session: Date, ts: seq<Text>)
    requires raw.bars.Some? && StrictlySortedBy(TextLeq, ts)
    ensures forall e ::
      e in EntriesFrom(parse, raw, ticker, session, ts) <==> FromDates(parse, raw, ticker, session, ts, e)
    ensures SortedBy(FullLeq, EntriesFrom(parse, raw, ticker, session, ts))
  {
    if ts != [] {
      var front, t := ts[..|ts| - 1], ts[|ts| - 1];
      EntriesFromFacts(parse, raw, ticker, session, front);
      assert ts == front + [t];
      var rows := EntriesFrom(parse, raw, ticker, session, front);
      forall k | 0 <= k < |rows|
        ensures FullLeq(rows[k], EntryFor(raw, t, session))
      {
        assert rows[k] in rows;
        var i :| 0 <= i < |front| && front[i] == rows[k].text;
        assert TextLeq(ts[i], ts[|ts| - 1]);
      }
    }
  }

  /** `e` is the entry of payload `p`. */
  ghost predicate EntryIn(parse: Text -> Option<Date>, p: RawPayload, ticker: Ticker, session: Date, e: PreservedClose) {
    Lists(parse, p, ticker, session, e.text) && e == EntryFor(p, e.text, session)
  }

  lemma EntriesOfFacts(parse: Text -> Option<Date>, raw: RawPayload, ticker: Ticker, session: Date)
    ensures forall e :: e in EntriesOf(parse, raw, ticker, session) <==> EntryIn(parse, raw, ticker, session, e)
    ensures SortedBy(FullLeq, EntriesOf(parse, raw, ticker, session))
    ensures forall e :: e in EntriesOf(parse, raw, ticker, session) ==> e.receivedAt == raw.receivedAt && e.rawId == raw.id
  {
    if raw.bars.Some? {
      SortedDatesFacts(raw.bars.value);
      EntriesFromFacts(parse, raw, ticker, session, SortedDates(raw.bars.value));
    }
  }

  lemma {:induction false} HistoryMembers(
      parse: Text -> Option<Date>, payloads: seq<RawPayload>, ticker: Ticker, session: Date, e: PreservedClose)
    ensures e in HistoryOf(parse, payloads, ticker, session)
       <==> exists p :: p in payloads && EntryIn(parse, p, ticker, session, e)
  {
    if payloads != [] {
      var front, last := payloads[..|payloads| - 1], payloads[|payloads| - 1];
      HistoryMembers(parse, front, ticker, session, e);
      EntriesOfFacts(parse, last, ticker, session);
      assert HistoryOf(parse, payloads, ticker, session)
          == HistoryOf(parse, front, ticker, session) + EntriesOf(parse, last, ticker, session);
      assert forall p :: p in payloads <==> p in front || p == last;
    }
  }

  lemma SortedConcat(a: seq<PreservedClose>, b: seq<PreservedClose>)
    requires SortedBy(FullLeq, a) && SortedBy(FullLeq, b)
    requires forall i, j :: 0 <= i < |a| && 0 <= j < |b| ==> FullLeq(a[i], b[j])
    ensures SortedBy(FullLeq, a + b)
  {
  }

  /** Entries of earlier payloads come before entries of a later one. */
  lemma HistoryBefore(
      parse: Text -> Option<Date>, front: seq<RawPayload>, last: RawPayload, ticker: Ticker, session: Date,
      e: PreservedClose, later: PreservedClose)
    requires e in HistoryOf(parse, front, ticker, session) && later in EntriesOf(parse, last, ticker, session)
    requires forall k :: 0 <= k < |front| ==> PayloadLeq(front[k], last) && front[k].id != last.id
    ensures FullLeq(e, later)
  {
    EntriesOfFacts(parse, last, ticker, session);
    HistoryMembers(parse, front, ticker, session, e);
    var p :| p in front && EntryIn(parse, p, ticker, session, e);
    var k :| 0 <= k < |front| && front[k] == p;
    assert PayloadLeq(front[k], last);
  }

  lemma {:induction false} HistorySorted(
      parse: Text -> Option<Date>, payloads: seq<RawPayload>, ticker: Ticker, session: Date)
    requires SortedBy(PayloadLeq, payloads) && UniqueIds(payloads)
    ensures SortedBy(FullLeq, HistoryOf(parse, payloads, ticker, session))
  {
    if payloads != [] {
      var n := |payloads| - 1;
      var front, last := payloads[..n], payloads[n];
      HistorySorted(parse, front, ticker, session);
      EntriesOfFacts(parse, last, ticker, session);
      var rows, more := HistoryOf(parse, front, ticker, session), EntriesOf(parse, last, ticker, session);
      assert forall k :: 0 <= k < n ==> PayloadLeq(payloads[k], payloads[n]) && payloads[k].id != payloads[n].id;
      forall i, j | 0 <= i < |rows| && 0 <= j < |more|
        ensures FullLeq(rows[i], more[j])
      {
        HistoryBefore(parse, front, last, ticker, session, rows[i], more[j]);
      }
      SortedConcat(rows, more);
    }
  }

  lemma LastOfFilter(rows: seq<PreservedClose>, cutoff: Instant, e: PreservedClose)
    requires SortedBy(FullLeq, rows)
    ensures match LastReceivedBy(rows, cutoff)
      case None => e in rows ==> cutoff < e.receivedAt
      case Some(l) => l in rows && l.receivedAt <= cutoff && (e in rows && e.receivedAt <= cutoff ==> FullLeq(e, l))
  {
    var keep := (e: PreservedClose) => e.receivedAt <= cutoff;
    var kept := Filter(rows, keep);
    FilterMembers(rows, keep);
    FilterSorted(FullLeq, rows, keep);
    if kept != [] {
      assert kept[|kept| - 1] in kept;
      if e in kept { var i :| 0 <= i < |kept| && kept[i] == e; }
    }
  }

  lemma SortedPayloads(payloads: seq<RawPayload>)
    requires UniqueIds(payloads)
    ensures SortedBy(PayloadLeq, StableSort(PayloadLeq, payloads))
    ensures UniqueIds(StableSort(PayloadLeq, payloads))
    ensures forall p :: p in StableSort(PayloadLeq, payloads) <==> p in payloads
  {
    var sorted := StableSort(PayloadLeq, payloads);
    SortKeeps(PayloadLeq, payloads);
    SortDistinct(PayloadLeq, payloads);
    forall i, j | 0 <= i < j < |sorted|
      ensures sorted[i].id != sorted[j].id
    {
      assert sorted[i] in sorted && sorted[j] in sorted && sorted[i] != sorted[j];
      IdsDiffer(payloads, sorted[i], sorted[j]);
    }
  }

  lemma IdsDiffer(payloads: seq<RawPayload>, p: RawPayload, q: RawPayload)
    requires UniqueIds(payloads) && p in payloads && q in payloads && p != q
    ensures p.id != q.id
  {
    var i :| 0 <= i < |payloads| && payloads[i] == p;
    var j :| 0 <= j < |payloads| && payloads[j] == q;
  }

  /** The catalogue agrees with the plain scan. */
  lemma LookupIsLatest(
      parse: Text -> Option<Date>, payloads: seq<RawPayload>, ticker: Ticker, session: Date, cutoff: Instant)
    requires UniqueIds(payloads)
    ensures IsLatest(parse, payloads, ticker, session, cutoff, Lookup(parse, payloads, ticker, session, cutoff))
  {
    var sorted := StableSort(PayloadLeq, payloads);
    SortedPayloads(payloads);
    HistorySorted(parse, sorted, ticker, session);
    var rows := HistoryOf(parse, sorted, ticker, session);
    SortOfSorted(EntryLeq, rows);
    var r := Lookup(parse, payloads, ticker, session, cutoff);
    forall q, u | q in payloads && Lists(parse, q, ticker, session, u)
      ensures match r
        case None => cutoff < q.receivedAt
        case Some(l) => q.receivedAt <= cutoff ==> FullLeq(EntryFor(q, u, session), l)
    {
      var e := EntryFor(q, u, session);
      assert q in sorted && EntryIn(parse, q, ticker, session, e);
      HistoryMembers(parse, sorted, ticker, session, e);
      LastOfFilter(rows, cutoff, e);
    }
    if r.Some? {
      LastOfFilter(rows, cutoff, r.value);
      HistoryMembers(parse, sorted, ticker, session, r.value);
      var p :| p in sorted && EntryIn(parse, p, ticker, session, r.value);
      forall q, u | q in payloads && Lists(parse, q, ticker, session, u) && q.receivedAt <= cutoff
        ensures KeyLeq(q, u, p, r.value.text)
      {
        assert FullLeq(EntryFor(q, u, session), r.value);
      }
    }
  }

  /** Payloads received after the cutoff, payloads of other tickers and the order in which
      payloads arrive in the input never change an answer. */
  lemma LookupSeesOnlyReceivedPayloads(
      parse: Text -> Option<Date>, ps: seq<RawPayload>, qs: seq<RawPayload>,
      ticker: Ticker, session: Date, cutoff: Instant)
    requires UniqueIds(ps) && UniqueIds(qs)
    requires forall p: RawPayload :: p.receivedAt <= cutoff && p.ticker == ticker ==> (p in ps <==> p in qs)
    ensures Lookup(parse, ps, ticker, session, cutoff) == Lookup(parse, qs, ticker, session, cutoff)
  {
    var a, b := Lookup(parse, ps, ticker, session, cutoff), Lookup(parse, qs, ticker, session, cutoff);
    LookupIsLatest(parse, ps, ticker, session, cutoff);
    LookupIsLatest(parse, qs, ticker, session, cutoff);
    if a.Some? && b.Some? {
      var p, t :| p in ps && Lists(parse, p, ticker, session, t) && p.receivedAt <= cutoff
        && a.value == EntryFor(p, t, session)
        && forall r, u :: r in ps && Lists(parse, r, ticker, session, u) && r.receivedAt <= cutoff ==> KeyLeq(r, u, p, t);
      var q, v :| q in qs && Lists(parse, q, ticker, session, v) && q.receivedAt <= cutoff
        && b.value == EntryFor(q, v, session)
        && forall r, u :: r in qs && Lists(parse, r, ticker, session, u) && r.receivedAt <= cutoff ==> KeyLeq(r, u, q, v);
      assert KeyLeq(q, v, p, t) && KeyLeq(p, t, q, v);
      assert p.id == q.id && t == v;
      var i :| 0 <= i < |ps| && ps[i] == p;
      var j :| 0 <= j < |ps| && ps[j] == q;
      assert i == j;
    }
  }

  /** Every close the catalogue answers with is positive. */
  lemma LookupIsPositive(
      parse: Text -> Option<Date>, payloads: seq<RawPayload>, ticker: Ticker, session: Date, cutoff: Instant)
    requires UniqueIds(payloads)
    ensures var r := Lookup(parse, payloads, ticker, session, cutoff);
      r.Some? && r.value.close.Some? ==> r.value.close.value > 0.0
  {
    LookupIsLatest(parse, payloads, ticker, session, cutoff);
    var r := Lookup(parse, payloads, ticker, session, cutoff);
    if r.Some? {
      var p, t :| p in payloads && Lists(parse, p, ticker, session, t) && r.value == EntryFor(p, t, session);
      EntryMeaning(p, t, session);
    }
  }
}
