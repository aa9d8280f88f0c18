/** Where the two readers of one dealer surface agree, and exactly where they do not. */
module DealerAgreement {
  import opened Prelude
  import opened TradingCalendar
  import opened DealerSurface
  import opened DealerReaders

  // ---------------------------------------------------------------- the spot a reader works with

  /** The surface with the spot the v3 reader settles on when it is handed `given`. */
  function Quoted(h: Heatmap, given: Option<real>): Heatmap { h.(spot := if given.Some? then given else h.spot) }

  /** The workspace hands the v3 reader the surface's spot, else the current stock price. */
  function WorkspaceSpot(h: Heatmap, stock: Option<real>): Option<real> { if h.spot.Some? then h.spot else stock }

  predicate SameNodes(v3: StructureV3, vnext: ContextVNext) {
    v3.StructureV3? && vnext.ContextVNext?
    && v3.floor == vnext.floor && v3.upper == vnext.upper && v3.belowFloor == vnext.belowFloor
  }

  /** The same reason for reporting nothing, or the same three primary nodes. */
  predicate SameReading(v3: StructureV3, vnext: ContextVNext) {
    if v3.NoStructureV3? then vnext == NoContextVNext(v3.reason) else SameNodes(v3, vnext)
  }

  // ---------------------------------------------------------------- nodes, in terms of the cells

  predicate Positioned(c: Cell, anchor: Date) { c.expiration == anchor && c.net.Some? }

  predicate Positive(c: Cell, anchor: Date) { Positioned(c, anchor) && c.net.value > 0.0 }

  ghost predicate HasLadder(cells: seq<Cell>, anchor: Date) { exists c :: c in cells && Positioned(c, anchor) }

  ghost predicate HasFloor(cells: seq<Cell>, anchor: Date, spot: real) {
    exists c :: c in cells && Positive(c, anchor) && c.strike < spot
  }

  /** The anchor cell with the greatest positive net value below spot, the higher strike on ties. */
  ghost predicate IsFloor(cells: seq<Cell>, anchor: Date, spot: real, f: Cell) {
    && f in cells && Positive(f, anchor) && f.strike < spot
    && forall c :: c in cells && Positive(c, anchor) && c.strike < spot && c != f ==> StrongerFloor(f, c)
  }

  /** The anchor cell with the greatest positive net value above spot, the lower strike on ties. */
  ghost predicate IsUpper(cells: seq<Cell>, anchor: Date, spot: real, u: Cell) {
    && u in cells && Positive(u, anchor) && u.strike > spot
    && forall c :: c in cells && Positive(c, anchor) && c.strike > spot && c != u ==> StrongerUpper(u, c)
  }

  function SortedLadder(cells: seq<Cell>, anchor: Date): seq<Cell> { StableSort(StrikeLeq, At(Netted(cells), anchor)) }

  function FloorOf(ladder: seq<Cell>, spot: real): Option<Cell> { Best(PositiveBelow(ladder, spot), StrongerFloor) }

  function UpperOf(ladder: seq<Cell>, spot: real): Option<Cell> { Best(PositiveAbove(ladder, spot), StrongerUpper) }

  function BelowOf(ladder: seq<Cell>, spot: real): Option<Cell> { Best(Below(ladder, FloorOf(ladder, spot)), HigherStrike) }

  lemma LadderMembers(cells: seq<Cell>, anchor: Date)
    ensures forall c :: c in At(Netted(cells), anchor) <==> c in cells && Positioned(c, anchor)
    ensures At(Netted(cells), anchor) != [] <==> HasLadder(cells, anchor)
  {
    FilterMembers(cells, (c: Cell) => c.net.Some?);
    FilterMembers(Netted(cells), (c: Cell) => c.expiration == anchor);
    var ladder := At(Netted(cells), anchor);
    if ladder != [] { assert ladder[0] in ladder; }
  }

  lemma SortedLadderSame(cells: seq<Cell>, anchor: Date, spot: real)
    requires UniqueCells(cells)
    ensures SortedLadder(cells, anchor) == [] <==> At(Netted(cells), anchor) == []
    ensures var s, t := At(Netted(cells), anchor), SortedLadder(cells, anchor);
      FloorOf(s, spot) == FloorOf(t, spot) && UpperOf(s, spot) == UpperOf(t, spot) && BelowOf(s, spot) == BelowOf(t, spot)
  {
    UniqueMembers(cells);
    LadderAt(cells, anchor);
    var ladder := At(Netted(cells), anchor);
    SortDistinct(StrikeLeq, ladder);
    EmptyTogether(ladder, SortedLadder(cells, anchor));
    ChoicesIgnoreOrder(ladder, SortedLadder(cells, anchor), spot);
  }

  /** What the choice of a floor means. */
  lemma FloorChoice(cells: seq<Cell>, anchor: Date, spot: real)
    requires UniqueCells(cells)
    ensures var f := FloorOf(At(Netted(cells), anchor), spot);
      && (f.Some? <==> HasFloor(cells, anchor, spot))
      && (f.Some? ==> IsFloor(cells, anchor, spot, f.value))
  {
    UniqueMembers(cells);
    LadderAt(cells, anchor);
    LadderMembers(cells, anchor);
    var ladder := At(Netted(cells), anchor);
    var low := (c: Cell) => c.strike < spot && c.net.Some? && c.net.value > 0.0;
    FilterMembers(ladder, low);
    SubLadder(ladder, low);
    LadderOrders(PositiveBelow(ladder, spot));
    BestDominates(PositiveBelow(ladder, spot), StrongerFloor);
    if PositiveBelow(ladder, spot) != [] { assert PositiveBelow(ladder, spot)[0] in PositiveBelow(ladder, spot); }
  }

  lemma UpperChoice(cells: seq<Cell>, anchor: Date, spot: real)
    requires UniqueCells(cells)
    ensures var u := UpperOf(At(Netted(cells), anchor), spot);
      && (u.Some? <==> exists c :: c in cells && Positive(c, anchor) && c.strike > spot)
      && (u.Some? ==> IsUpper(cells, anchor, spot, u.value))
  {
    UniqueMembers(cells);
    LadderAt(cells, anchor);
    LadderMembers(cells, anchor);
    var ladder := At(Netted(cells), anchor);
    var high := (c: Cell) => c.strike > spot && c.net.Some? && c.net.value > 0.0;
    FilterMembers(ladder, high);
    SubLadder(ladder, high);
    LadderOrders(PositiveAbove(ladder, spot));
    BestDominates(PositiveAbove(ladder, spot), StrongerUpper);
    if PositiveAbove(ladder, spot) != [] { assert PositiveAbove(ladder, spot)[0] in PositiveAbove(ladder, spot); }
  }

  // ---------------------------------------------------------------- the primary nodes

  /** Whatever spot the v3 reader is handed, it reads the surface as the vNext reader reads the same
      surface quoted at that spot. */
  lemma ReadersPickSameNodes(h: Heatmap, anchor: Date, given: Option<real>)
    requires Usable(h.quality) && UniqueCells(h.cells)
    ensures SameReading(BuildStructure(h, anchor, given), ContextForExpiry(Some(Quoted(h, given)), anchor))
  {
    var spot := Quoted(h, given).spot;
    if spot.Some? { SortedLadderSame(h.cells, anchor, spot.value); }
  }

  /** When the v3 reader reports a structure, and its primary floor: there is one exactly when some
      positive anchor cell lies below spot, it is the greatest of them, and then the hold condition
      is met. */
  lemma FloorIsGreatest(h: Heatmap, anchor: Date, given: Option<real>)
    requires Usable(h.quality) && UniqueCells(h.cells)
    ensures var v3, spot := BuildStructure(h, anchor, given), Quoted(h, given).spot;
      && (v3.StructureV3? <==> spot.Some? && HasLadder(h.cells, anchor))
      && (v3.StructureV3? ==>
            && (v3.floor.Some? <==> HasFloor(h.cells, anchor, spot.value))
            && (v3.holds <==> HasFloor(h.cells, anchor, spot.value))
            && (v3.floor.Some? ==> exists f :: f in h.cells && v3.floor == Some(NodeOf(f)))
            && forall f :: f in h.cells ==> (v3.floor == Some(NodeOf(f)) <==> IsFloor(h.cells, anchor, spot.value, f)))
  {
    var spot := Quoted(h, given).spot;
    LadderMembers(h.cells, anchor);
    UniqueMembers(h.cells);
    if spot.Some? {
      SortedLadderSame(h.cells, anchor, spot.value);
      FloorChoice(h.cells, anchor, spot.value);
      forall f | f in h.cells
        ensures FloorOf(At(Netted(h.cells), anchor), spot.value) == Some(f) <==> IsFloor(h.cells, anchor, spot.value, f)
      {
      }
    }
  }

  // ---------------------------------------------------------------- one surface, two spots

  /** Every positive anchor cell from `low` up to `high` is outdone by one below `low`. */
  ghost predicate NoFloorBetween(cells: seq<Cell>, anchor: Date, low: real, high: real) {
    forall c :: c in cells && Positive(c, anchor) && low <= c.strike < high ==> FloorOutdone(cells, anchor, low, c)
  }

  ghost predicate FloorOutdone(cells: seq<Cell>, anchor: Date, low: real, c: Cell) {
    exists f :: f in cells && Positive(f, anchor) && f.strike < low && StrongerFloor(f, c)
  }

  /** Every positive anchor cell above `low` up to `high` is outdone by one above `high`. */
  ghost predicate NoUpperBetween(cells: seq<Cell>, anchor: Date, low: real, high: real) {
    forall c :: c in cells && Positive(c, anchor) && low < c.strike <= high ==> UpperOutdone(cells, anchor, high, c)
  }

  ghost predicate UpperOutdone(cells: seq<Cell>, anchor: Date, high: real, c: Cell) {
    exists u :: u in cells && Positive(u, anchor) && u.strike > high && StrongerUpper(u, c)
  }

  /** No node would be chosen differently at the one spot than at the other. */
  ghost predicate Interchangeable(cells: seq<Cell>, anchor: Date, s: real, t: real) {
    var low, high := if s <= t then s else t, if s <= t then t else s;
    NoFloorBetween(cells, anchor, low, high) && NoUpperBetween(cells, anchor, low, high)
  }

  lemma FloorsAlikeIff(cells: seq<Cell>, anchor: Date, low: real, high: real)
    requires UniqueCells(cells) && low <= high
    ensures var ladder := At(Netted(cells), anchor);
      FloorOf(ladder, low) == FloorOf(ladder, high) <==> NoFloorBetween(cells, anchor, low, high)
  {
    var ladder := At(Netted(cells), anchor);
    FloorChoice(cells, anchor, low);
    FloorChoice(cells, anchor, high);
    var a, b := FloorOf(ladder, low), FloorOf(ladder, high);
    if a == b {
      forall c | c in cells && Positive(c, anchor) && low <= c.strike < high
        ensures FloorOutdone(cells, anchor, low, c)
      {
        assert HasFloor(cells, anchor, high);
        assert StrongerFloor(a.value, c);
      }
    }
    if NoFloorBetween(cells, anchor, low, high) && b.Some? {
      assert b.value.strike >= low ==> FloorOutdone(cells, anchor, low, b.value);
      assert b.value.strike < low;
    }
  }

  lemma UppersAlikeIff(cells: seq<Cell>, anchor: Date, low: real, high: real)
    requires UniqueCells(cells) && low <= high
    ensures var ladder := At(Netted(cells), anchor);
      UpperOf(ladder, low) == UpperOf(ladder, high) <==> NoUpperBetween(cells, anchor, low, high)
  {
    var ladder := At(Netted(cells), anchor);
    UpperChoice(cells, anchor, low);
    UpperChoice(cells, anchor, high);
    var a, b := UpperOf(ladder, low), UpperOf(ladder, high);
    if a == b {
      forall c | c in cells && Positive(c, anchor) && low < c.strike <= high
        ensures UpperOutdone(cells, anchor, high, c)
      {
        assert StrongerUpper(b.value, c);
      }
    }
    if NoUpperBetween(cells, anchor, low, high) && a.Some? {
      assert a.value.strike <= high ==> UpperOutdone(cells, anchor, high, a.value);
      assert a.value.strike > high;
    }
  }

  lemma NodesTellCells(cells: seq<Cell>, a: Option<Cell>, b: Option<Cell>)
    requires OnePerSpot(cells) && (a.Some? ==> a.value in cells) && (b.Some? ==> b.value in cells)
    ensures OptionalNode(a) == OptionalNode(b) <==> a == b
  {
    if a.Some? && b.Some? && NodeOf(a.value) == NodeOf(b.value) { assert SameSpot(a.value, b.value); }
  }

  lemma VNextAt(h: Heatmap, anchor: Date)
    requires h.spot.Some? && HasLadder(h.cells, anchor)
    ensures var c, ladder := ContextForExpiry(Some(h), anchor), At(Netted(h.cells), anchor);
      && c.ContextVNext? && c.floor == OptionalNode(FloorOf(ladder, h.spot.value))
      && c.upper == OptionalNode(UpperOf(ladder, h.spot.value))
      && c.belowFloor == OptionalNode(BelowOf(ladder, h.spot.value))
  {
    LadderMembers(h.cells, anchor);
  }

  lemma TwoSpotsAgreeIff(h: Heatmap, anchor: Date, s: real, t: real)
    requires UniqueCells(h.cells) && HasLadder(h.cells, anchor)
    ensures var a, b := ContextForExpiry(Some(h.(spot := Some(s))), anchor), ContextForExpiry(Some(h.(spot := Some(t))), anchor);
      && a.ContextVNext? && b.ContextVNext?
      && (a.floor == b.floor && a.upper == b.upper && a.belowFloor == b.belowFloor <==> Interchangeable(h.cells, anchor, s, t))
  {
    var ladder := At(Netted(h.cells), anchor);
    VNextAt(h.(spot := Some(s)), anchor);
    VNextAt(h.(spot := Some(t)), anchor);
    UniqueMembers(h.cells);
    FloorChoice(h.cells, anchor, s);
    FloorChoice(h.cells, anchor, t);
    UpperChoice(h.cells, anchor, s);
    UpperChoice(h.cells, anchor, t);
    NodesTellCells(h.cells, FloorOf(ladder, s), FloorOf(ladder, t));
    NodesTellCells(h.cells, UpperOf(ladder, s), UpperOf(ladder, t));
    var low, high := if s <= t then s else t, if s <= t then t else s;
    FloorsAlikeIff(h.cells, anchor, low, high);
    UppersAlikeIff(h.cells, anchor, low, high);
  }

  /** On one and the same surface the readers agree exactly when the v3 reader is handed no spot, or
      the surface has a spot and no positive anchor cell between the two spots would change a node. */
  lemma SameSurfaceAgreesIff(h: Heatmap, anchor: Date, given: Option<real>)
    requires Usable(h.quality) && UniqueCells(h.cells)
    ensures SameReading(BuildStructure(h, anchor, given), ContextForExpiry(Some(h), anchor)) <==>
      given.None? || (h.spot.Some? && Interchangeable(h.cells, anchor, h.spot.value, given.value))
  {
    ReadersPickSameNodes(h, anchor, given);
    LadderMembers(h.cells, anchor);
    assert given.None? ==> Quoted(h, given) == h;
    if given.Some? && h.spot.Some? {
      assert h == h.(spot := Some(h.spot.value));
      if HasLadder(h.cells, anchor) { TwoSpotsAgreeIff(h, anchor, h.spot.value, given.value); }
    }
  }

  /** The workspace's v3 reading and the vNext reading of a usable surface agree exactly when the
      surface has a spot or no stock price stands in for it. */
  lemma WorkspaceAgreesIff(h: Heatmap, anchor: Date, stock: Option<real>)
    requires Usable(h.quality) && UniqueCells(h.cells)
    ensures SameReading(BuildStructure(h, anchor, WorkspaceSpot(h, stock)), ContextForExpiry(Some(h), anchor)) <==>
      h.spot.Some? || stock.None?
  {
    SameSurfaceAgreesIff(h, anchor, WorkspaceSpot(h, stock));
  }

  // ---------------------------------------------------------------- adjacent expirations

  ghost predicate HasEarlier(cells: seq<Cell>, anchor: Date) { exists c :: c in cells && c.net.Some? && c.expiration < anchor }

  ghost predicate HasLater(cells: seq<Cell>, anchor: Date) { exists c :: c in cells && c.net.Some? && c.expiration > anchor }

  lemma NeighboursIff(cells: seq<Cell>, anchor: Date)
    ensures Previous(Netted(cells), anchor).Some? <==> HasEarlier(cells, anchor)
    ensures Next(Netted(cells), anchor).Some? <==> HasLater(cells, anchor)
  {
    FilterMembers(cells, (c: Cell) => c.net.Some?);
    PreviousMeaning(Netted(cells), anchor);
    NextMeaning(Netted(cells), anchor);
  }

  lemma AdjacencyV3(h: Heatmap, anchor: Date, given: Option<real>)
    requires BuildStructure(h, anchor, given).StructureV3?
    ensures var v3, spot, cells := BuildStructure(h, anchor, given), Quoted(h, given).spot, Netted(h.cells);
      && Usable(h.quality) && spot.Some?
      && var floor := FloorOf(SortedLadder(h.cells, anchor), spot.value);
      && v3.floor == OptionalNode(floor) && v3.state == StateV3(floor, v3.previous, v3.next)
      && v3.previous == EvidenceV3(cells, Previous(cells, anchor), floor)
      && v3.next == EvidenceV3(cells, Next(cells, anchor), floor)
  {
  }

  lemma AdjacencyVNext(h: Heatmap, anchor: Date)
    requires h.spot.Some? && At(Netted(h.cells), anchor) != []
    ensures var c, floor, cells := ContextForExpiry(Some(h), anchor), FloorOf(At(Netted(h.cells), anchor), h.spot.value), Netted(h.cells);
      && c.ContextVNext? && c.state == StateVNext(c.previous, c.next)
      && c.previous == SameStrike(cells, Previous(cells, anchor), floor)
      && c.next == SameStrike(cells, Next(cells, anchor), floor)
  {
  }

  lemma EvidenceAgrees(cells: seq<Cell>, e: Option<Date>, floor: Option<Cell>)
    ensures EvidenceV3(cells, e, floor) == SameStrike(cells, e, floor) <==> floor.Some? || e.None?
    ensures floor.None? ==> SameStrike(cells, e, floor).None?
  {
  }

  /** The parts of both readings, over one floor. */
  lemma PartsOf(h: Heatmap, anchor: Date, given: Option<real>) returns (floor: Option<Cell>, cells: seq<Cell>)
    requires UniqueCells(h.cells) && BuildStructure(h, anchor, given).StructureV3?
    ensures var v3, vnext := BuildStructure(h, anchor, given), ContextForExpiry(Some(Quoted(h, given)), anchor);
      && Quoted(h, given).spot.Some? && cells == Netted(h.cells)
      && floor == FloorOf(At(cells, anchor), Quoted(h, given).spot.value)
      && vnext.ContextVNext? && v3.state == StateV3(floor, v3.previous, v3.next)
      && vnext.state == StateVNext(vnext.previous, vnext.next)
      && v3.previous == EvidenceV3(cells, Previous(cells, anchor), floor)
      && v3.next == EvidenceV3(cells, Next(cells, anchor), floor)
      && vnext.previous == SameStrike(cells, Previous(cells, anchor), floor)
      && vnext.next == SameStrike(cells, Next(cells, anchor), floor)
  {
    AdjacencyV3(h, anchor, given);
    var spot := Quoted(h, given).spot.value;
    SortedLadderSame(h.cells, anchor, spot);
    floor, cells := FloorOf(At(Netted(h.cells), anchor), spot), Netted(h.cells);
    AdjacencyVNext(Quoted(h, given), anchor);
  }

  /** The readers report the same node for the earlier (later) expiration exactly when there is a
      positive anchor cell below spot or no such expiration: without a floor v3 shows a placeholder
      where vNext shows nothing. */
  lemma AdjacentNodesAgreeIff(h: Heatmap, anchor: Date, given: Option<real>)
    requires UniqueCells(h.cells) && BuildStructure(h, anchor, given).StructureV3?
    ensures var v3, vnext := BuildStructure(h, anchor, given), ContextForExpiry(Some(Quoted(h, given)), anchor);
      && Quoted(h, given).spot.Some? && vnext.ContextVNext?
      && var floor := HasFloor(h.cells, anchor, Quoted(h, given).spot.value);
      && (v3.previous == vnext.previous <==> floor || !HasEarlier(h.cells, anchor))
      && (v3.next == vnext.next <==> floor || !HasLater(h.cells, anchor))
  {
    var floor, cells := PartsOf(h, anchor, given);
    FloorChoice(h.cells, anchor, Quoted(h, given).spot.value);
    NeighboursIff(h.cells, anchor);
    EvidenceAgrees(cells, Previous(cells, anchor), floor);
    EvidenceAgrees(cells, Next(cells, anchor), floor);
  }

  // ---------------------------------------------------------------- the two adjacency vocabularies

  /** The cell at one strike on the nearest expiration before the anchor that has netted cells. */
  ghost predicate IsEarlier(cells: seq<Cell>, anchor: Date, strike: real, c: Cell) {
    && c in cells && c.net.Some? && c.expiration < anchor && c.strike == strike
    && forall d :: d in cells && d.net.Some? && d.expiration < anchor ==> d.expiration <= c.expiration
  }

  ghost predicate IsLater(cells: seq<Cell>, anchor: Date, strike: real, c: Cell) {
    && c in cells && c.net.Some? && c.expiration > anchor && c.strike == strike
    && forall d :: d in cells && d.net.Some? && d.expiration > anchor ==> c.expiration <= d.expiration
  }

  /** `earlier` and `later` are those cells, None where there is none. */
  ghost predicate AreAdjacent(cells: seq<Cell>, anchor: Date, strike: real, earlier: Option<Cell>, later: Option<Cell>) {
    && (if earlier.Some? then IsEarlier(cells, anchor, strike, earlier.value) else forall c :: !IsEarlier(cells, anchor, strike, c))
    && (if later.Some? then IsLater(cells, anchor, strike, later.value) else forall c :: !IsLater(cells, anchor, strike, c))
  }

  predicate Above0(c: Option<Cell>) { c.Some? && c.value.net.Some? && c.value.net.value > 0.0 }

  predicate Is0(c: Option<Cell>) { c.Some? && c.value.net == Some(0.0) }

  /** Both vocabularies, as the signs of the two adjacent cells decide them. They part exactly on
      zeros: two non-positive cells with a zero are NOT_ALIGNED and mixed, a single zero is
      NOT_ALIGNED and unavailable. */
  predicate StatesFollow(v3: AdjacentV3, vnext: AdjacentVNext, earlier: Option<Cell>, later: Option<Cell>) {
    if earlier.Some? && later.Some? then
      if Above0(earlier) && Above0(later) then v3 == AlignedV3 && vnext == BothPositive
      else if Above0(earlier) || Above0(later) then v3 == MixedV3 && vnext == MixedSign
      else v3 == NotAlignedV3 && vnext == if Is0(earlier) || Is0(later) then MixedSign else BothNegative
    else if earlier.Some? || later.Some? then
      if Above0(earlier) || Above0(later) then v3 == PartiallyAlignedV3 && vnext == SinglePositive
      else v3 == NotAlignedV3 && vnext == if Is0(earlier) || Is0(later) then UnavailableVNext else SingleNegative
    else v3 == UnavailableV3 && vnext == UnavailableVNext
  }

  /** A node stands for a cell: same value, or no value for no cell. */
  predicate Shows(n: Option<Node>, c: Option<Cell>) {
    if c.Some? then n == Some(NodeOf(c.value)) else Readable(n) == []
  }

  lemma EarlierShown(cells: seq<Cell>, anchor: Date, floor: Cell, earlier: Option<Cell>)
    requires OnePerSpot(cells)
    requires if earlier.Some? then IsEarlier(cells, anchor, floor.strike, earlier.value)
             else forall c :: !IsEarlier(cells, anchor, floor.strike, c)
    ensures Shows(SameStrike(Netted(cells), Previous(Netted(cells), anchor), Some(floor)), earlier)
  {
    var netted := Netted(cells);
    FilterMembers(cells, (c: Cell) => c.net.Some?);
    PreviousMeaning(netted, anchor);
    var p := Previous(netted, anchor);
    if p.Some? {
      FirstAtMeaning(netted, p.value, floor.strike);
      var m := FirstAt(netted, p.value, floor.strike);
      if m.Some? {
        assert IsEarlier(cells, anchor, floor.strike, m.value);
        assert SameSpot(m.value, earlier.value);
      }
    }
  }

  lemma LaterShown(cells: seq<Cell>, anchor: Date, floor: Cell, later: Option<Cell>)
    requires OnePerSpot(cells)
    requires if later.Some? then IsLater(cells, anchor, floor.strike, later.value)
             else forall c :: !IsLater(cells, anchor, floor.strike, c)
    ensures Shows(SameStrike(Netted(cells), Next(Netted(cells), anchor), Some(floor)), later)
  {
    var netted := Netted(cells);
    FilterMembers(cells, (c: Cell) => c.net.Some?);
    NextMeaning(netted, anchor);
    var n := Next(netted, anchor);
    if n.Some? {
      FirstAtMeaning(netted, n.value, floor.strike);
      var m := FirstAt(netted, n.value, floor.strike);
      if m.Some? {
        assert IsLater(cells, anchor, floor.strike, m.value);
        assert SameSpot(m.value, later.value);
      }
    }
  }

  lemma StatesOfNodes(floor: Cell, previous: Option<Node>, next: Option<Node>, earlier: Option<Cell>, later: Option<Cell>)
    requires Shows(previous, earlier) && Shows(next, later)
    requires (earlier.Some? ==> earlier.value.net.Some?) && (later.Some? ==> later.value.net.Some?)
    ensures StatesFollow(StateV3(Some(floor), previous, next), StateVNext(previous, next), earlier, later)
  {
    var a, b := Readable(previous), Readable(next);
    assert |a + b| == |a| + |b|;
    if |a| == 1 { assert (a + b)[0] == a[0]; }
    if |b| == 1 { assert (a + b)[|a|] == b[0]; }
  }

  /** Both adjacency states follow from the cells at the floor strike on the two nearest
      expirations; without a floor both readers call the adjacency unavailable. */
  lemma AdjacentStatesAgree(h: Heatmap, anchor: Date, given: Option<real>, earlier: Option<Cell>, later: Option<Cell>)
    requires UniqueCells(h.cells) && BuildStructure(h, anchor, given).StructureV3?
    requires forall f :: Quoted(h, given).spot.Some? && IsFloor(h.cells, anchor, Quoted(h, given).spot.value, f) ==>
        AreAdjacent(h.cells, anchor, f.strike, earlier, later)
    ensures var v3, vnext := BuildStructure(h, anchor, given), ContextForExpiry(Some(Quoted(h, given)), anchor);
      && Quoted(h, given).spot.Some? && vnext.ContextVNext?
      && if HasFloor(h.cells, anchor, Quoted(h, given).spot.value) then StatesFollow(v3.state, vnext.state, earlier, later)
         else v3.state == UnavailableV3 && vnext.state == UnavailableVNext
  {
    var floor, cells := PartsOf(h, anchor, given);
    FloorChoice(h.cells, anchor, Quoted(h, given).spot.value);
    EvidenceAgrees(cells, Previous(cells, anchor), floor);
    EvidenceAgrees(cells, Next(cells, anchor), floor);
    if floor.Some? {
      UniqueMembers(h.cells);
      EarlierShown(h.cells, anchor, floor.value, earlier);
      LaterShown(h.cells, anchor, floor.value, later);
      StatesOfNodes(floor.value, SameStrike(cells, Previous(cells, anchor), floor), SameStrike(cells, Next(cells, anchor), floor), earlier, later);
    }
  }

  // ---------------------------------------------------------------- three surfaces on which they differ

  /** A usable response that names no spot: one positive cell at 95, vendor time known. */
  function SpotlessData(): SurfaceData {
    SurfaceData(Some([SourceCell(Some(10), Some(95.0), Some(5.0), None, None)]), Some(1), Some(false), false, None)
  }

  function ReadableSurface(s: Surface): Heatmap { Heatmap(s.quality, s.spot, s.cells) }

  lemma ParseOne(c: SourceCell)
    requires Parses(c) && c.net.Some?
    ensures ParseCells([c]) == Parse([CellOf(c)], 0, 0, 0)
  {
    assert [c][..0] == [];
    assert ParseCells([]) == Parse([], 0, 0, 0);
  }

  /** A surface that normalization accepts, with a stock price of 100: v3 reports a floor at 95 and
      vNext reports that there is no spot. */
  lemma SpotlessSurface(ticker: Ticker)
    ensures var h := ReadableSurface(Normalize(ticker, Some(SpotlessData()), 200));
      var v3 := BuildStructure(h, 10, WorkspaceSpot(h, Some(100.0)));
      && Usable(h.quality) && h.spot.None?
      && v3.StructureV3? && v3.floor == Some(Node(10, Some(95.0), Some(5.0), Sign.Positive))
      && ContextForExpiry(Some(h), 10) == NoContextVNext(SpotNotAvailable)
  {
    ParseOne(SourceCell(Some(10), Some(95.0), Some(5.0), None, None));
    var h := ReadableSurface(Normalize(ticker, Some(SpotlessData()), 200));
    var c := Cell(10, 95.0, Some(5.0), None, None);
    assert h.cells == [c];
    OneFloor(h, c, Some(100.0));
  }

  lemma OneFloor(h: Heatmap, f: Cell, given: Option<real>)
    requires Usable(h.quality) && UniqueCells(h.cells) && given.Some? && IsFloor(h.cells, f.expiration, given.value, f)
    ensures var v3 := BuildStructure(h, f.expiration, given);
      v3.StructureV3? && v3.floor == Some(NodeOf(f))
  {
    var spot := given.value;
    FloorIsGreatest(h, f.expiration, given);
    assert HasLadder(h.cells, f.expiration) && HasFloor(h.cells, f.expiration, spot);
    SortedLadderSame(h.cells, f.expiration, spot);
    FloorChoice(h.cells, f.expiration, spot);
  }

  function NoFloorSurface(): Heatmap {
    Heatmap(Available, Some(100.0), [Cell(10, 95.0, Some(-5.0), None, None), Cell(20, 95.0, Some(3.0), None, None)])
  }

  /** No positive cell below spot and a later expiration: v3 shows a placeholder, vNext nothing. */
  lemma PlaceholderAgainstNothing()
    ensures var v3, vnext := BuildStructure(NoFloorSurface(), 10, None), ContextForExpiry(Some(NoFloorSurface()), 10);
      && v3.StructureV3? && vnext.ContextVNext?
      && v3.next == Some(Node(20, None, None, NotPresent)) && vnext.next == None
  {
    var h := NoFloorSurface();
    var near, far := h.cells[0], h.cells[1];
    assert near in h.cells && far in h.cells && UniqueCells(h.cells);
    assert Positioned(near, 10) && HasLadder(h.cells, 10);
    FloorIsGreatest(h, 10, None);
    var floor, cells := PartsOf(h, 10, None);
    assert Quoted(h, None) == h;
    FloorChoice(h.cells, 10, 100.0);
    FilterMembers(h.cells, (c: Cell) => c.net.Some?);
    NextMeaning(cells, 10);
    assert far in cells;
  }

  function ZeroNeighbourSurface(): Heatmap {
    Heatmap(Available, Some(100.0), [Cell(10, 95.0, Some(5.0), None, None), Cell(20, 95.0, Some(0.0), None, None)])
  }

  /** A floor and, at its strike on a later expiration, a single zero-valued cell. */
  lemma LoneZero(h: Heatmap, near: Cell, far: Cell)
    requires Usable(h.quality) && h.spot.Some? && h.cells == [near, far]
    requires Positive(near, near.expiration) && near.strike < h.spot.value
    requires far.expiration > near.expiration && far.strike == near.strike && Is0(Some(far))
    ensures var v3, vnext := BuildStructure(h, near.expiration, None), ContextForExpiry(Some(h), near.expiration);
      v3.StructureV3? && vnext.ContextVNext? && v3.state == NotAlignedV3 && vnext.state == UnavailableVNext
  {
    assert near in h.cells && far in h.cells && UniqueCells(h.cells);
    assert HasLadder(h.cells, near.expiration) && HasFloor(h.cells, near.expiration, h.spot.value);
    FloorIsGreatest(h, near.expiration, None);
    assert Quoted(h, None) == h;
    assert IsLater(h.cells, near.expiration, near.strike, far);
    AdjacentStatesAgree(h, near.expiration, None, None, Some(far));
  }

  lemma NotAlignedAgainstUnavailable()
    ensures var v3, vnext := BuildStructure(ZeroNeighbourSurface(), 10, None), ContextForExpiry(Some(ZeroNeighbourSurface()), 10);
      && v3.StructureV3? && vnext.ContextVNext?
      && v3.state == NotAlignedV3 && vnext.state == UnavailableVNext
  {
    var h := ZeroNeighbourSurface();
    LoneZero(h, h.cells[0], h.cells[1]);
  }
}
