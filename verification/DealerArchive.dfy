/** The dealer surface archive: idempotent persistence, reading back, and the as-of query. */
module DealerArchive {
  import opened Prelude
  import opened TradingCalendar
  import opened DealerSurface
  import opened DealerReaders

  datatype Snapshot = Snapshot(
    id: int, runId: int, ticker: Ticker, vendorTime: Option<Instant>, capturedAt: Instant, spot: Option<real>,
    quality: Quality, error: Option<SafeError>, truncated: bool, cellCount: nat, identity: Option<Identity>,
    analytical: bool)

  datatype CellRow = CellRow(snapshotId: int, cell: Cell)

  /** The two tables of the archive; new rows are appended and numbered by position. */
  datatype Archive = Archive(snapshots: seq<Snapshot>, cells: seq<CellRow>)

  // ---------------------------------------------------------------- persisting

  function Find(snapshots: seq<Snapshot>, identity: Identity): Option<Snapshot> {
    if snapshots == [] then None
    else
      var earlier := Find(snapshots[..|snapshots| - 1], identity);
      if earlier.Some? then earlier
      else if snapshots[|snapshots| - 1].identity == Some(identity) then Some(snapshots[|snapshots| - 1])
      else None
  }

  function RowFor(a: Archive, runId: int, s: Surface, capturedAt: Instant): Snapshot {
    Snapshot(|a.snapshots|, runId, s.ticker, s.vendorTime, capturedAt, s.spot, s.quality, s.error, s.truncated,
             if Usable(s.quality) then |s.cells| else 0, s.identity, Usable(s.quality))
  }

  function Tagged(id: int, cells: seq<Cell>): (r: seq<CellRow>)
    ensures |r| == |cells| && forall i :: 0 <= i < |cells| ==> r[i] == CellRow(id, cells[i])
  {
    if cells == [] then [] else Tagged(id, cells[..|cells| - 1]) + [CellRow(id, cells[|cells| - 1])]
  }

  function Existing(a: Archive, s: Surface): Option<Snapshot> {
    if s.identity.Some? then Find(a.snapshots, s.identity.value) else None
  }

  function Inserted(a: Archive, runId: int, s: Surface, capturedAt: Instant): Archive {
    Archive(a.snapshots + [RowFor(a, runId, s, capturedAt)],
            a.cells + if Usable(s.quality) then Tagged(|a.snapshots|, s.cells) else [])
  }

  datatype Persisted = Persisted(archive: Archive, row: Snapshot, reused: bool)

  /** `persist_surface`: a replayed observation identity reuses its row and adds nothing. */
  function PersistSurface(a: Archive, runId: int, s: Surface, capturedAt: Instant): Persisted {
    var existing := Existing(a, s);
    if existing.Some? then Persisted(a, existing.value, true)
    else Persisted(Inserted(a, runId, s, capturedAt), RowFor(a, runId, s, capturedAt), false)
  }

  // ---------------------------------------------------------------- reading back

  predicate CellLeq(x: Cell, y: Cell) {
    x.expiration < y.expiration || (x.expiration == y.expiration && x.strike <= y.strike)
  }

  function CellsOf(rows: seq<CellRow>, id: int): seq<Cell> {
    if rows == [] then []
    else
      var front, last := CellsOf(rows[..|rows| - 1], id), rows[|rows| - 1];
      if last.snapshotId == id then front + [last.cell] else front
  }

  /** `archived_surface_payload`: the snapshot's cells by expiration and strike. */
  function Payload(a: Archive, row: Snapshot): Heatmap {
    Heatmap(row.quality, row.spot, StableSort(CellLeq, CellsOf(a.cells, row.id)))
  }

  function SurfaceHeatmap(s: Surface): Heatmap { Heatmap(s.quality, s.spot, s.cells) }

  // ---------------------------------------------------------------- the archive invariant

  /** A usable, faithful surface, as normalization produces it. */
  ghost predicate SoundSurface(s: Surface) {
    if Usable(s.quality) then UniqueCells(s.cells) && s.vendorTime.Some? && s.identity == Some(Identity(s.ticker, s.vendorTime.value))
    else s.identity.None?
  }

  lemma NormalizedIsSound(ticker: Ticker, data: Option<SurfaceData>, status: int)
    ensures SoundSurface(Normalize(ticker, data, status))
  {
    UsableSurfaceIsFaithful(ticker, data, status);
  }

  ghost predicate RowSound(a: Archive, i: nat)
    requires i < |a.snapshots|
  {
    var r := a.snapshots[i];
    && r.id == i && r.analytical == Usable(r.quality)
    && (r.analytical ==> r.vendorTime.Some? && r.identity == Some(Identity(r.ticker, r.vendorTime.value)))
    && (!r.analytical ==> r.identity.None?)
    && UniqueCells(CellsOf(a.cells, i)) && |CellsOf(a.cells, i)| == r.cellCount
  }

  ghost predicate CellsOwned(a: Archive) {
    forall k :: 0 <= k < |a.cells| ==> 0 <= a.cells[k].snapshotId < |a.snapshots|
  }

  ghost predicate IdentitiesUnique(snapshots: seq<Snapshot>) {
    forall i, j :: 0 <= i < j < |snapshots| && snapshots[i].identity.Some? ==> snapshots[i].identity != snapshots[j].identity
  }

  ghost predicate ValidArchive(a: Archive) {
    && CellsOwned(a) && IdentitiesUnique(a.snapshots)
    && forall i :: 0 <= i < |a.snapshots| ==> RowSound(a, i)
  }

  lemma {:induction false} FindMeaning(snapshots: seq<Snapshot>, identity: Identity)
    ensures var f := Find(snapshots, identity);
      if f.Some? then f.value in snapshots && f.value.identity == Some(identity)
      else forall i :: 0 <= i < |snapshots| ==> snapshots[i].identity != Some(identity)
  {
    if snapshots != [] { FindMeaning(snapshots[..|snapshots| - 1], identity); }
  }

  lemma {:induction false} CellsOfConcat(a: seq<CellRow>, b: seq<CellRow>, id: int)
    ensures CellsOf(a + b, id) == CellsOf(a, id) + CellsOf(b, id)
  {
    if b == [] {
      assert a + b == a;
    } else {
      CellsOfConcat(a, b[..|b| - 1], id);
      assert (a + b)[..|a + b| - 1] == a + b[..|b| - 1];
    }
  }

  lemma {:induction false} CellsOfTagged(owner: int, cells: seq<Cell>, id: int)
    ensures CellsOf(Tagged(owner, cells), id) == if id == owner then cells else []
  {
    if cells != [] {
      var rows := Tagged(owner, cells);
      CellsOfTagged(owner, cells[..|cells| - 1], id);
      assert rows[..|rows| - 1] == Tagged(owner, cells[..|cells| - 1]);
      assert cells == cells[..|cells| - 1] + [cells[|cells| - 1]];
    }
  }

  lemma {:induction false} NoCellsYet(rows: seq<CellRow>, id: int)
    requires forall k :: 0 <= k < |rows| ==> rows[k].snapshotId != id
    ensures CellsOf(rows, id) == []
  {
    if rows != [] { NoCellsYet(rows[..|rows| - 1], id); }
  }

  /** The cells of every snapshot after an insertion: old ones unchanged, the new one's as given. */
  lemma InsertedCells(a: Archive, runId: int, s: Surface, capturedAt: Instant, id: int)
    requires CellsOwned(a)
    ensures CellsOf(Inserted(a, runId, s, capturedAt).cells, id)
         == if id == |a.snapshots| then (if Usable(s.quality) then s.cells else []) else CellsOf(a.cells, id)
  {
    var more := if Usable(s.quality) then Tagged(|a.snapshots|, s.cells) else [];
    CellsOfConcat(a.cells, more, id);
    if Usable(s.quality) { CellsOfTagged(|a.snapshots|, s.cells, id); }
    if id == |a.snapshots| { NoCellsYet(a.cells, id); }
  }

  /** Persisting any sound surface keeps the archive valid: identities stay unique, earlier rows
      and their cells are untouched, and a replay adds nothing. */
  lemma PersistKeeps(a: Archive, runId: int, s: Surface, capturedAt: Instant)
    requires ValidArchive(a) && SoundSurface(s)
    ensures var p := PersistSurface(a, runId, s, capturedAt);
      && ValidArchive(p.archive) && a.snapshots <= p.archive.snapshots && a.cells <= p.archive.cells
      && p.row in p.archive.snapshots && p.row.identity == s.identity
      && (p.reused <==> s.identity.Some? && exists i :: 0 <= i < |a.snapshots| && a.snapshots[i].identity == s.identity)
      && (p.reused ==> p.archive == a)
      && (!p.reused ==> |p.archive.snapshots| == |a.snapshots| + 1)
  {
    if s.identity.Some? { FindMeaning(a.snapshots, s.identity.value); }
    var p := PersistSurface(a, runId, s, capturedAt);
    if !p.reused {
      var a' := p.archive;
      assert a'.snapshots[|a.snapshots|] == RowFor(a, runId, s, capturedAt);
      forall i | 0 <= i < |a'.snapshots|
        ensures RowSound(a', i)
      {
        InsertedCells(a, runId, s, capturedAt, i);
        if i < |a.snapshots| { assert RowSound(a, i); }
      }
    }
  }

  /** Persist, read back through the archive, and both readers see what the vendor sent. */
  lemma ReadBackIsFaithful(a: Archive, runId: int, s: Surface, capturedAt: Instant, anchor: Date, given: Option<real>)
    requires ValidArchive(a) && SoundSurface(s) && Usable(s.quality) && !PersistSurface(a, runId, s, capturedAt).reused
    ensures var p := PersistSurface(a, runId, s, capturedAt);
      && ContextForExpiry(Some(Payload(p.archive, p.row)), anchor) == ContextForExpiry(Some(SurfaceHeatmap(s)), anchor)
      && BuildStructure(Payload(p.archive, p.row), anchor, given) == BuildStructure(SurfaceHeatmap(s), anchor, given)
      && multiset(Payload(p.archive, p.row).cells) == multiset(s.cells)
      && SortedBy(CellLeq, Payload(p.archive, p.row).cells)
  {
    var p := PersistSurface(a, runId, s, capturedAt);
    InsertedCells(a, runId, s, capturedAt, |a.snapshots|);
    UniqueAfterSort(s.cells, CellLeq);
    SortKeeps(CellLeq, s.cells);
    assert Payload(p.archive, p.row) == SurfaceHeatmap(s).(cells := StableSort(CellLeq, s.cells));
    StructureIgnoresOrder(SurfaceHeatmap(s), StableSort(CellLeq, s.cells), anchor, given);
    ContextIgnoresOrder(SurfaceHeatmap(s), StableSort(CellLeq, s.cells), anchor);
  }

  // ---------------------------------------------------------------- the as-of query

  /** A snapshot with the cells stored under it. */
  datatype Archived = Archived(row: Snapshot, cells: seq<Cell>)

  function AllArchived(a: Archive, snapshots: seq<Snapshot>): seq<Archived> {
    if snapshots == [] then []
    else AllArchived(a, snapshots[..|snapshots| - 1])
         + [Archived(snapshots[|snapshots| - 1], CellsOf(a.cells, snapshots[|snapshots| - 1].id))]
  }

  predicate VisibleAt(x: Archived, ticker: Ticker, cutoff: Instant) {
    && x.row.ticker == ticker && x.row.analytical
    && x.row.vendorTime.Some? && x.row.vendorTime.value <= cutoff
    && x.row.capturedAt <= cutoff
  }

  /** Later vendor time first, then later capture. */
  predicate Fresher(x: Archived, y: Archived) {
    x.row.vendorTime.Some? && y.row.vendorTime.Some?
    && (x.row.vendorTime.value > y.row.vendorTime.value
        || (x.row.vendorTime == y.row.vendorTime && x.row.capturedAt > y.row.capturedAt))
  }

  function Freshest(s: seq<Archived>): Option<Archived> {
    if s == [] then None
    else
      var best := Freshest(s[..|s| - 1]);
      if best.None? || Fresher(s[|s| - 1], best.value) then Some(s[|s| - 1]) else best
  }

  /** `best_archived_surface_at_or_before`. */
  function BestAtOrBefore(surfaces: seq<Archived>, ticker: Ticker, cutoff: Instant): Option<Archived> {
    Freshest(Filter(surfaces, (x: Archived) => VisibleAt(x, ticker, cutoff)))
  }

  ghost predicate Timed(s: seq<Archived>) { forall i :: 0 <= i < |s| ==> s[i].row.vendorTime.Some? }

  lemma {:induction false} FreshestMeaning(s: seq<Archived>)
    requires Timed(s)
    ensures s == [] <==> Freshest(s).None?
    ensures s != [] ==> Freshest(s).value in s && forall x :: x in s ==> !Fresher(x, Freshest(s).value)
  {
    if s != [] {
      FreshestMeaning(s[..|s| - 1]);
      assert s == s[..|s| - 1] + [s[|s| - 1]];
    }
  }

  /** The answer was captured and vendor-observed by the cutoff, and no other visible surface is
      fresher; there is an answer exactly when some surface is visible. */
  lemma BestIsFreshestVisible(surfaces: seq<Archived>, ticker: Ticker, cutoff: Instant)
    ensures var best := BestAtOrBefore(surfaces, ticker, cutoff);
      if best.Some? then
        && best.value in surfaces && VisibleAt(best.value, ticker, cutoff)
        && forall x :: x in surfaces && VisibleAt(x, ticker, cutoff) ==> !Fresher(x, best.value)
      else forall x :: x in surfaces ==> !VisibleAt(x, ticker, cutoff)
  {
    var visible := (x: Archived) => VisibleAt(x, ticker, cutoff);
    FilterMembers(surfaces, visible);
    var s := Filter(surfaces, visible);
    forall i | 0 <= i < |s|
      ensures s[i].row.vendorTime.Some?
    {
      assert s[i] in s;
    }
    FreshestMeaning(s);
  }
}
