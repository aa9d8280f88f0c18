/** Normalizing a dealer gamma heatmap: deduplication and the quality cascade. */
module DealerSurface {
  import opened Prelude
  import opened TradingCalendar

  /** One row of the vendor's cell list after field parsing; absent values are None. */
  datatype SourceCell =
    | NotAnObject
    | SourceCell(expiration: Option<Date>, strike: Option<real>, net: Option<real>, call: Option<real>, put: Option<real>)

  datatype Cell = Cell(expiration: Date, strike: real, net: Option<real>, call: Option<real>, put: Option<real>)

  /** The data object of a response. `cells` is None when it is not a list; `truncated` is None
      when the flag is missing or not a boolean. */
  datatype SurfaceData = SurfaceData(
    cells: Option<seq<SourceCell>>, vendorTime: Option<Instant>, truncated: Option<bool>, degraded: bool,
    spot: Option<real>)

  datatype Quality = Available | AvailableDegraded | IncompleteOrTruncated | Unavailable

  datatype SafeError =
    | SourceRequestUnavailable | MissingPayload | MalformedOrMissingCells | IncompleteSurface
    | MissingVendorTime | NoUsableNetCells | PartialNetValues | VendorReportedDegraded | TruncationStatusInvalid
    | RequestError(code: int)

  /** The identity hash is injective in ticker and vendor time, so it is modelled by them. */
  datatype Identity = Identity(ticker: Ticker, vendorTime: Instant)

  datatype Surface = Surface(
    ticker: Ticker, vendorTime: Option<Instant>, spot: Option<real>, quality: Quality, error: Option<SafeError>,
    truncated: bool, cells: seq<Cell>, identity: Option<Identity>)

  predicate Usable(q: Quality) { q == Available || q == AvailableDegraded }

  // ---------------------------------------------------------------- the deduplication loop

  predicate Parses(c: SourceCell) { c.SourceCell? && c.expiration.Some? && c.strike.Some? }

  function CellOf(c: SourceCell): Cell
    requires Parses(c)
  {
    Cell(c.expiration.value, c.strike.value, c.net, c.call, c.put)
  }

  predicate SameSpot(a: Cell, b: Cell) { a.expiration == b.expiration && a.strike == b.strike }

  predicate Seen(cells: seq<Cell>, c: Cell) {
    exists i :: 0 <= i < |cells| && SameSpot(cells[i], c)
  }

  datatype Parse = Parse(cells: seq<Cell>, invalid: nat, duplicates: nat, missingNet: nat)

  function ParseStep(p: Parse, c: SourceCell): Parse {
    if !Parses(c) then p.(invalid := p.invalid + 1)
    else if Seen(p.cells, CellOf(c)) then p.(duplicates := p.duplicates + 1)
    else p.(cells := p.cells + [CellOf(c)], missingNet := p.missingNet + if c.net.None? then 1 else 0)
  }

  function ParseCells(source: seq<SourceCell>): Parse {
    if source == [] then Parse([], 0, 0, 0) else ParseStep(ParseCells(source[..|source| - 1]), source[|source| - 1])
  }

  method ParseSurfaceCells(source: seq<SourceCell>) returns (p: Parse)
    ensures p == ParseCells(source)
  {
    var cells: seq<Cell> := [];
    var identities: set<(Date, real)> := {};
    var invalid, duplicates, missingNet := 0, 0, 0;
    for i := 0 to |source|
      invariant invalid >= 0 && duplicates >= 0 && missingNet >= 0
      invariant Parse(cells, invalid, duplicates, missingNet) == ParseCells(source[..i])
      invariant forall e, s :: (e, s) in identities <==> Seen(cells, Cell(e, s, None, None, None))
    {
      assert source[..i + 1][..i] == source[..i];
      var c := source[i];
      if !Parses(c) {
        invalid := invalid + 1;
        continue;
      }
      var cell := CellOf(c);
      SeenByIdentity(cells, cell);
      if (cell.expiration, cell.strike) in identities {
        duplicates := duplicates + 1;
        continue;
      }
      SeenStep(cells, cell);
      identities := identities + {(cell.expiration, cell.strike)};
      if c.net.None? { missingNet := missingNet + 1; }
      cells := cells + [cell];
    }
    assert source[..|source|] == source;
    p := Parse(cells, invalid, duplicates, missingNet);
  }

  lemma SeenByIdentity(cells: seq<Cell>, c: Cell)
    ensures Seen(cells, c) <==> Seen(cells, Cell(c.expiration, c.strike, None, None, None))
  {
    var bare := Cell(c.expiration, c.strike, None, None, None);
    if Seen(cells, c) {
      var i :| 0 <= i < |cells| && SameSpot(cells[i], c);
      assert SameSpot(cells[i], bare);
    }
    if Seen(cells, bare) {
      var i :| 0 <= i < |cells| && SameSpot(cells[i], bare);
      assert SameSpot(cells[i], c);
    }
  }

  lemma SeenStep(cells: seq<Cell>, c: Cell)
    ensures forall d :: Seen(cells + [c], d) <==> Seen(cells, d) || SameSpot(c, d)
  {
    var r := cells + [c];
    assert r[|cells|] == c;
    forall d | Seen(cells, d)
      ensures Seen(r, d)
    {
      var i :| 0 <= i < |cells| && SameSpot(cells[i], d);
      assert SameSpot(r[i], d);
    }
  }

  // ---------------------------------------------------------------- the quality cascade

  function Judge(status: int, data: Option<SurfaceData>, p: Parse): (Quality, Option<SafeError>) {
    if status >= 400 then (Unavailable, Some(SourceRequestUnavailable))
    else if data.None? then (Unavailable, Some(MissingPayload))
    else if data.value.cells.None? then (Unavailable, Some(MalformedOrMissingCells))
    else if data.value.truncated == Some(true) || p.invalid > 0 || p.duplicates > 0 then
      (IncompleteOrTruncated, Some(IncompleteSurface))
    else if data.value.vendorTime.None? then (Unavailable, Some(MissingVendorTime))
    else if p.cells == [] || p.missingNet == |p.cells| then (Unavailable, Some(NoUsableNetCells))
    else if p.missingNet > 0 then (AvailableDegraded, Some(PartialNetValues))
    else if data.value.degraded then (AvailableDegraded, Some(VendorReportedDegraded))
    else if data.value.truncated != Some(false) then (AvailableDegraded, Some(TruncationStatusInvalid))
    else (Available, None)
  }

  function SourceCells(data: Option<SurfaceData>): seq<SourceCell> {
    if data.Some? && data.value.cells.Some? then data.value.cells.value else []
  }

  function VendorTime(data: Option<SurfaceData>): Option<Instant> {
    if data.Some? then data.value.vendorTime else None
  }

  /** `data` is None for an empty or missing data object. */
  function Normalize(ticker: Ticker, data: Option<SurfaceData>, status: int): Surface {
    var p := ParseCells(SourceCells(data));
    var (quality, error) := Judge(status, data, p);
    var time := VendorTime(data);
    Surface(ticker, time, if data.Some? then data.value.spot else None, quality, error,
            data.Some? && data.value.truncated == Some(true),
            if Usable(quality) then p.cells else [],
            if Usable(quality) && time.Some? then Some(Identity(ticker, time.value)) else None)
  }

  method NormalizeSurface(ticker: Ticker, data: Option<SurfaceData>, status: int) returns (surface: Surface)
    ensures surface == Normalize(ticker, data, status)
  {
    var p := ParseSurfaceCells(SourceCells(data));
    var (quality, error) := Judge(status, data, p);
    var parsed := p.cells;
    if !Usable(quality) {
      parsed := [];
    }
    var time := VendorTime(data);
    var identity := if Usable(quality) && time.Some? then Some(Identity(ticker, time.value)) else None;
    surface := Surface(ticker, time, if data.Some? then data.value.spot else None, quality, error,
                       data.Some? && data.value.truncated == Some(true), parsed, identity);
  }

  function UnavailableSurface(ticker: Ticker, code: int): Surface {
    Surface(ticker, None, None, Unavailable, Some(RequestError(code)), false, [], None)
  }

  // ---------------------------------------------------------------- what usable means

  ghost predicate UniqueCells(cells: seq<Cell>) {
    forall i, j :: 0 <= i < j < |cells| ==> !SameSpot(cells[i], cells[j])
  }

  ghost predicate AllParse(source: seq<SourceCell>) {
    forall i :: 0 <= i < |source| ==> Parses(source[i])
  }

  ghost predicate DistinctSpots(source: seq<SourceCell>)
    requires AllParse(source)
  {
    forall i, j :: 0 <= i < j < |source| ==> !SameSpot(CellOf(source[i]), CellOf(source[j]))
  }

  function CountMissing(cells: seq<Cell>): nat {
    if cells == [] then 0 else CountMissing(cells[..|cells| - 1]) + if cells[|cells| - 1].net.None? then 1 else 0
  }

  lemma {:induction false} ParseFacts(source: seq<SourceCell>)
    ensures var p := ParseCells(source);
      && UniqueCells(p.cells) && |p.cells| + p.invalid + p.duplicates == |source|
      && p.missingNet == CountMissing(p.cells)
  {
    if source != [] {
      ParseFacts(source[..|source| - 1]);
      var p := ParseCells(source[..|source| - 1]);
      var c := source[|source| - 1];
      if Parses(c) && !Seen(p.cells, CellOf(c)) {
        assert (p.cells + [CellOf(c)])[..|p.cells|] == p.cells;
      }
    }
  }

  /** Nothing is invalid or duplicated exactly when every row parses and no two rows share their
      expiration and strike; then every row is kept in place. */
  lemma {:induction false} CleanIff(source: seq<SourceCell>)
    ensures var p := ParseCells(source);
      && (p.invalid == 0 && p.duplicates == 0 <==> AllParse(source) && DistinctSpots(source))
      && (p.invalid == 0 && p.duplicates == 0 ==>
            |p.cells| == |source| && forall i :: 0 <= i < |source| ==> p.cells[i] == CellOf(source[i]))
  {
    if source != [] {
      var front, c := source[..|source| - 1], source[|source| - 1];
      CleanIff(front);
      var p := ParseCells(front);
      assert source == front + [c];
      if AllParse(source) && DistinctSpots(source) {
        assert AllParse(front) && DistinctSpots(front);
        forall i | 0 <= i < |p.cells|
          ensures !SameSpot(p.cells[i], CellOf(c))
        {
          assert p.cells[i] == CellOf(source[i]) && c == source[|front|];
        }
        assert !Seen(p.cells, CellOf(c));
      }
      if ParseCells(source).invalid == 0 && ParseCells(source).duplicates == 0 {
        assert Parses(c) && !Seen(p.cells, CellOf(c));
        forall i, j | 0 <= i < j < |source|
          ensures !SameSpot(CellOf(source[i]), CellOf(source[j]))
        {
          assert p.cells[i] == CellOf(source[i]);
        }
      }
    }
  }

  lemma {:induction false} MissingAll(cells: seq<Cell>)
    ensures CountMissing(cells) <= |cells|
    ensures CountMissing(cells) == |cells| <==> forall i :: 0 <= i < |cells| ==> cells[i].net.None?
    ensures CountMissing(cells) == 0 <==> forall i :: 0 <= i < |cells| ==> cells[i].net.Some?
  {
    if cells != [] { MissingAll(cells[..|cells| - 1]); }
  }

  ghost predicate SomeNet(source: seq<SourceCell>) {
    exists i :: 0 <= i < |source| && source[i].SourceCell? && source[i].net.Some?
  }

  ghost predicate EveryNet(source: seq<SourceCell>) {
    forall i :: 0 <= i < |source| ==> source[i].SourceCell? && source[i].net.Some?
  }

  /** A whole, readable heatmap with a vendor time and a net value. */
  ghost predicate Whole(data: Option<SurfaceData>, status: int) {
    && status < 400 && data.Some? && data.value.cells.Some?
    && data.value.truncated != Some(true)
    && AllParse(SourceCells(data)) && DistinctSpots(SourceCells(data))
    && data.value.vendorTime.Some?
    && SomeNet(SourceCells(data))
  }

  /** A surface is usable exactly when the response is whole; it is fully available exactly when,
      besides, every cell has a net value and the vendor said neither degraded nor left the
      truncation flag open. */
  lemma UsableIff(ticker: Ticker, data: Option<SurfaceData>, status: int)
    ensures var s := Normalize(ticker, data, status);
      && (Usable(s.quality) <==> Whole(data, status))
      && (s.quality == Available <==> Whole(data, status) && EveryNet(SourceCells(data))
                                      && !data.value.degraded && data.value.truncated == Some(false))
      && (s.quality == Available <==> s.error.None?)
  {
    var p := ParseCells(SourceCells(data));
    JudgeMeaning(data, status, p);
    CleanIff(SourceCells(data));
    if p.invalid == 0 && p.duplicates == 0 { NetsKept(SourceCells(data)); }
  }

  /** The response is readable, apart from what the cells hold. */
  predicate Answerable(data: Option<SurfaceData>, status: int) {
    status < 400 && data.Some? && data.value.cells.Some? && data.value.truncated != Some(true) && data.value.vendorTime.Some?
  }

  /** The cascade as a whole. */
  lemma JudgeMeaning(data: Option<SurfaceData>, status: int, p: Parse)
    ensures var (quality, error) := Judge(status, data, p);
      var kept := p.invalid == 0 && p.duplicates == 0 && p.cells != [] && p.missingNet != |p.cells|;
      && (Usable(quality) <==> Answerable(data, status) && kept)
      && (quality == Available <==> Answerable(data, status) && kept && p.missingNet == 0
                                    && !data.value.degraded && data.value.truncated == Some(false))
      && (quality == Available <==> error.None?)
  {
  }

  /** A clean parse keeps the net values. */
  lemma NetsKept(source: seq<SourceCell>)
    requires ParseCells(source).invalid == 0 && ParseCells(source).duplicates == 0
    ensures var p := ParseCells(source);
      && (p.cells != [] && p.missingNet != |p.cells| <==> SomeNet(source))
      && (p.missingNet == 0 <==> EveryNet(source))
  {
    var p := ParseCells(source);
    ParseFacts(source);
    CleanIff(source);
    MissingAll(p.cells);
    NetsAgree(source, p.cells);
  }

  lemma NetsAgree(source: seq<SourceCell>, cells: seq<Cell>)
    requires AllParse(source) && |cells| == |source| && forall i :: 0 <= i < |source| ==> cells[i] == CellOf(source[i])
    ensures SomeNet(source) <==> exists i :: 0 <= i < |cells| && cells[i].net.Some?
    ensures EveryNet(source) <==> forall i :: 0 <= i < |cells| ==> cells[i].net.Some?
  {
    if SomeNet(source) {
      var i :| 0 <= i < |source| && source[i].SourceCell? && source[i].net.Some?;
      assert cells[i].net.Some?;
    }
    if i :| 0 <= i < |cells| && cells[i].net.Some? {
      assert source[i].net.Some?;
    }
  }

  /** A usable surface carries every source cell once and in place, under a vendor-time identity;
      an unusable one carries no cell and no identity. */
  lemma UsableSurfaceIsFaithful(ticker: Ticker, data: Option<SurfaceData>, status: int)
    ensures var s, source := Normalize(ticker, data, status), SourceCells(data);
      if Usable(s.quality) then
        && AllParse(source) && UniqueCells(s.cells) && s.cells != []
        && |s.cells| == |source| && (forall i :: 0 <= i < |source| ==> s.cells[i] == CellOf(source[i]))
        && s.vendorTime.Some? && s.identity == Some(Identity(ticker, s.vendorTime.value))
      else s.cells == [] && s.identity.None?
  {
    UsableIff(ticker, data, status);
    ParseFacts(SourceCells(data));
    CleanIff(SourceCells(data));
  }
}
