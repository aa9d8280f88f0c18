/** Two independently written readers of one dealer surface, and that neither depends on cell order. */
module DealerReaders {
  import opened Prelude
  import opened TradingCalendar
  import opened DealerSurface

  datatype Sign = Positive | Negative | Zero | NotPresent

  /** What both readers report about a node; `strike` and `net` are None for a placeholder. */
  datatype Node = Node(expiration: Date, strike: Option<real>, net: Option<real>, sign: Sign)

  /** A surface as a reader receives it. */
  datatype Heatmap = Heatmap(quality: Quality, spot: Option<real>, cells: seq<Cell>)

  datatype Reason = SourceNotUsable | SpotNotAvailable | AnchorLadderNotAvailable | ArchiveNotAvailable

  // ---------------------------------------------------------------- choosing a cell

  /** The first element that no later element strictly beats. */
  function Best(s: seq<Cell>, beats: (Cell, Cell) -> bool): Option<Cell> {
    if s == [] then None
    else
      var best := Best(s[..|s| - 1], beats);
      if best.None? || beats(s[|s| - 1], best.value) then Some(s[|s| - 1]) else best
  }

  /** By (net, strike). */
  predicate StrongerFloor(a: Cell, b: Cell) {
    a.net.Some? && b.net.Some? && (a.net.value > b.net.value || (a.net == b.net && a.strike > b.strike))
  }

  /** By (net, -strike). */
  predicate StrongerUpper(a: Cell, b: Cell) {
    a.net.Some? && b.net.Some? && (a.net.value > b.net.value || (a.net == b.net && a.strike < b.strike))
  }

  predicate HigherStrike(a: Cell, b: Cell) { a.strike > b.strike }

  ghost predicate Dominates(beats: (Cell, Cell) -> bool, s: seq<Cell>, m: Cell) {
    m in s && forall x :: x in s && x != m ==> beats(m, x)
  }

  /** `beats` orders the elements of `s` strictly and totally. */
  ghost predicate Orders(beats: (Cell, Cell) -> bool, s: seq<Cell>) {
    && (forall x, y :: x in s && y in s && beats(x, y) ==> !beats(y, x))
    && (forall x, y, z :: x in s && y in s && z in s && beats(x, y) && beats(y, z) ==> beats(x, z))
    && (forall x, y :: x in s && y in s && x != y ==> beats(x, y) || beats(y, x))
  }

  lemma {:induction false} BestDominates(s: seq<Cell>, beats: (Cell, Cell) -> bool)
    requires Orders(beats, s)
    ensures s == [] <==> Best(s, beats).None?
    ensures s != [] ==> Dominates(beats, s, Best(s, beats).value)
  {
    if s != [] {
      var front, last := s[..|s| - 1], s[|s| - 1];
      assert forall x :: x in s <==> x in front || x == last;
      assert Orders(beats, front);
      BestDominates(front, beats);
      var best := Best(front, beats);
      if best.None? || beats(last, best.value) {
        assert Best(s, beats) == Some(last);
        assert forall x :: x in front && x != last ==> beats(last, x);
      } else {
        assert Best(s, beats) == best;
      }
    }
  }

  /** The choice depends only on which cells there are, not on their order. */
  lemma BestIgnoresOrder(s: seq<Cell>, t: seq<Cell>, beats: (Cell, Cell) -> bool)
    requires Orders(beats, s) && forall x :: x in s <==> x in t
    ensures Best(s, beats) == Best(t, beats)
  {
    BestDominates(s, beats);
    BestDominates(t, beats);
    if s != [] {
      assert s[0] in t;
      var a, b := Best(s, beats).value, Best(t, beats).value;
      assert a in t && b in s;
    } else {
      EmptyTogether(s, t);
    }
  }

  // ---------------------------------------------------------------- cell sets

  function Netted(cells: seq<Cell>): seq<Cell> { Filter(cells, (c: Cell) => c.net.Some?) }

  function At(cells: seq<Cell>, expiration: Date): seq<Cell> { Filter(cells, (c: Cell) => c.expiration == expiration) }

  function PositiveBelow(ladder: seq<Cell>, spot: real): seq<Cell> {
    Filter(ladder, (c: Cell) => c.strike < spot && c.net.Some? && c.net.value > 0.0)
  }

  function PositiveAbove(ladder: seq<Cell>, spot: real): seq<Cell> {
    Filter(ladder, (c: Cell) => c.strike > spot && c.net.Some? && c.net.value > 0.0)
  }

  function Below(ladder: seq<Cell>, floor: Option<Cell>): seq<Cell> {
    if floor.None? then [] else Filter(ladder, (c: Cell) => c.strike < floor.value.strike)
  }

  predicate StrikeLeq(a: Cell, b: Cell) { a.strike <= b.strike }

  function SignOf(c: Cell): Sign {
    if c.net.None? then NotPresent
    else if c.net.value > 0.0 then Positive else if c.net.value < 0.0 then Negative else Zero
  }

  function NodeOf(c: Cell): Node { Node(c.expiration, Some(c.strike), c.net, SignOf(c)) }

  function OptionalNode(c: Option<Cell>): Option<Node> {
    if c.None? then None else Some(NodeOf(c.value))
  }

  /** The latest expiration before and the earliest after the anchor. */
  function Previous(cells: seq<Cell>, anchor: Date): Option<Date> {
    if cells == [] then None
    else
      var best, e := Previous(cells[..|cells| - 1], anchor), cells[|cells| - 1].expiration;
      if e < anchor && (best.None? || e > best.value) then Some(e) else best
  }

  function Next(cells: seq<Cell>, anchor: Date): Option<Date> {
    if cells == [] then None
    else
      var best, e := Next(cells[..|cells| - 1], anchor), cells[|cells| - 1].expiration;
      if e > anchor && (best.None? || e < best.value) then Some(e) else best
  }

  /** The first cell at one expiration and strike. */
  function FirstAt(cells: seq<Cell>, expiration: Date, strike: real): Option<Cell> {
    if cells == [] then None
    else
      var earlier, c := FirstAt(cells[..|cells| - 1], expiration, strike), cells[|cells| - 1];
      if earlier.None? && c.expiration == expiration && c.strike == strike then Some(c) else earlier
  }

  // ---------------------------------------------------------------- the v3 workspace reader

  datatype AdjacentV3 = AlignedV3 | MixedV3 | NotAlignedV3 | PartiallyAlignedV3 | UnavailableV3

  datatype StructureV3 =
    | NoStructureV3(reason: Reason)
    | StructureV3(floor: Option<Node>, upper: Option<Node>, belowFloor: Option<Node>,
                  state: AdjacentV3, previous: Option<Node>, next: Option<Node>, holds: bool, breaks: bool)

  function EvidenceV3(cells: seq<Cell>, expiration: Option<Date>, floor: Option<Cell>): Option<Node> {
    if expiration.None? then None
    else
      var match_ := if floor.Some? then FirstAt(cells, expiration.value, floor.value.strike) else None;
      if match_.None? then
        Some(Node(expiration.value, if floor.Some? then Some(floor.value.strike) else None, None, NotPresent))
      else Some(NodeOf(match_.value))
  }

  function Readable(node: Option<Node>): seq<Node> {
    if node.Some? && node.value.net.Some? then [node.value] else []
  }

  predicate IsPositive(n: Node) { n.net.Some? && n.net.value > 0.0 }

  function StateV3(floor: Option<Cell>, previous: Option<Node>, next: Option<Node>): AdjacentV3 {
    var usable := Readable(previous) + Readable(next);
    if floor.None? || usable == [] then UnavailableV3
    else if |usable| == 2 then
      if IsPositive(usable[0]) && IsPositive(usable[1]) then AlignedV3
      else if IsPositive(usable[0]) || IsPositive(usable[1]) then MixedV3
      else NotAlignedV3
    else if IsPositive(usable[0]) then PartiallyAlignedV3
    else NotAlignedV3
  }

  /** `build_dealer_gex_structure`; a given spot takes precedence over the surface's. */
  function BuildStructure(heatmap: Heatmap, anchor: Date, given: Option<real>): StructureV3 {
    if !Usable(heatmap.quality) then NoStructureV3(SourceNotUsable)
    else
      var spot := if given.Some? then given else heatmap.spot;
      if spot.None? then NoStructureV3(SpotNotAvailable)
      else
        var cells := Netted(heatmap.cells);
        var ladder := StableSort(StrikeLeq, At(cells, anchor));
        if ladder == [] then NoStructureV3(AnchorLadderNotAvailable)
        else
          var floor := Best(PositiveBelow(ladder, spot.value), StrongerFloor);
          var upper := Best(PositiveAbove(ladder, spot.value), StrongerUpper);
          var below := Best(Below(ladder, floor), HigherStrike);
          var previous := EvidenceV3(cells, Previous(cells, anchor), floor);
          var next := EvidenceV3(cells, Next(cells, anchor), floor);
          var breaks := floor.Some? && below.Some? && below.value.net.Some? && below.value.net.value < 0.0;
          StructureV3(OptionalNode(floor), OptionalNode(upper), OptionalNode(below),
                      StateV3(floor, previous, next), previous, next,
                      floor.Some? && spot.value > floor.value.strike, breaks)
  }

  // ---------------------------------------------------------------- the vNext reader

  datatype AdjacentVNext =
    | BothNegative | BothPositive | MixedSign | SingleNegative | SinglePositive | UnavailableVNext

  datatype ContextVNext =
    | NoContextVNext(reason: Reason)
    | ContextVNext(floor: Option<Node>, upper: Option<Node>, belowFloor: Option<Node>,
                   state: AdjacentVNext, previous: Option<Node>, next: Option<Node>)

  function SameStrike(cells: seq<Cell>, target: Option<Date>, floor: Option<Cell>): Option<Node> {
    if target.None? || floor.None? then None
    else
      var match_ := FirstAt(cells, target.value, floor.value.strike);
      if match_.Some? then Some(NodeOf(match_.value))
      else Some(Node(target.value, Some(floor.value.strike), None, NotPresent))
  }

  function StateVNext(previous: Option<Node>, next: Option<Node>): AdjacentVNext {
    var available := Readable(previous) + Readable(next);
    if |available| == 2 then
      if available[0].sign == Negative && available[1].sign == Negative then BothNegative
      else if available[0].sign == Positive && available[1].sign == Positive then BothPositive
      else MixedSign
    else if |available| == 1 && available[0].sign == Negative then SingleNegative
    else if |available| == 1 && available[0].sign == Positive then SinglePositive
    else UnavailableVNext
  }

  /** `dealer_gex_context_for_expiry`; None is a missing archive surface. */
  function ContextForExpiry(payload: Option<Heatmap>, anchor: Date): ContextVNext {
    if payload.None? then NoContextVNext(ArchiveNotAvailable)
    else
      var cells := Netted(payload.value.cells);
      var spot := payload.value.spot;
      if spot.None? then NoContextVNext(SpotNotAvailable)
      else
        var ladder := At(cells, anchor);
        if ladder == [] then NoContextVNext(AnchorLadderNotAvailable)
        else
          var floor := Best(PositiveBelow(ladder, spot.value), StrongerFloor);
          var upper := Best(PositiveAbove(ladder, spot.value), StrongerUpper);
          var below := Best(Below(ladder, floor), HigherStrike);
          var previous := SameStrike(cells, Previous(cells, anchor), floor);
          var next := SameStrike(cells, Next(cells, anchor), floor);
          ContextVNext(OptionalNode(floor), OptionalNode(upper), OptionalNode(below),
                       StateVNext(previous, next), previous, next)
  }

  // ---------------------------------------------------------------- order independence

  ghost predicate SameCells(s: seq<Cell>, t: seq<Cell>) { forall c :: c in s <==> c in t }

  /** Cells of one expiration with pairwise different strikes, all with a net value. */
  ghost predicate Ladder(s: seq<Cell>) {
    && (forall x :: x in s ==> x.net.Some?)
    && forall x, y :: x in s && y in s && x != y ==> x.strike != y.strike
  }

  lemma LadderOrders(s: seq<Cell>)
    requires Ladder(s)
    ensures Orders(StrongerFloor, s) && Orders(StrongerUpper, s) && Orders(HigherStrike, s)
  {
  }

  lemma SubLadder(s: seq<Cell>, keep: Cell -> bool)
    requires Ladder(s)
    ensures Ladder(Filter(s, keep))
  {
    FilterMembers(s, keep);
  }

  lemma FilterSame(s: seq<Cell>, t: seq<Cell>, keep: Cell -> bool)
    requires SameCells(s, t)
    ensures SameCells(Filter(s, keep), Filter(t, keep))
  {
    FilterMembers(s, keep);
    FilterMembers(t, keep);
  }

  /** The three nodes both readers take from a ladder do not depend on its order. */
  lemma ChoicesIgnoreOrder(s: seq<Cell>, t: seq<Cell>, spot: real)
    requires Ladder(s) && SameCells(s, t)
    ensures var floor := Best(PositiveBelow(s, spot), StrongerFloor);
      && floor == Best(PositiveBelow(t, spot), StrongerFloor)
      && Best(PositiveAbove(s, spot), StrongerUpper) == Best(PositiveAbove(t, spot), StrongerUpper)
      && Best(Below(s, floor), HigherStrike) == Best(Below(t, floor), HigherStrike)
  {
    var low := (c: Cell) => c.strike < spot && c.net.Some? && c.net.value > 0.0;
    var high := (c: Cell) => c.strike > spot && c.net.Some? && c.net.value > 0.0;
    FilterSame(s, t, low);
    SubLadder(s, low);
    LadderOrders(PositiveBelow(s, spot));
    BestIgnoresOrder(PositiveBelow(s, spot), PositiveBelow(t, spot), StrongerFloor);
    FilterSame(s, t, high);
    SubLadder(s, high);
    LadderOrders(PositiveAbove(s, spot));
    BestIgnoresOrder(PositiveAbove(s, spot), PositiveAbove(t, spot), StrongerUpper);
    var floor := Best(PositiveBelow(s, spot), StrongerFloor);
    if floor.Some? {
      var under := (c: Cell) => c.strike < floor.value.strike;
      FilterSame(s, t, under);
      SubLadder(s, under);
      LadderOrders(Below(s, floor));
      BestIgnoresOrder(Below(s, floor), Below(t, floor), HigherStrike);
    }
  }

  lemma {:induction false} PreviousMeaning(cells: seq<Cell>, anchor: Date)
    ensures var p := Previous(cells, anchor);
      && (p.Some? ==> p.value < anchor && exists c :: c in cells && c.expiration == p.value)
      && (forall c :: c in cells && c.expiration < anchor ==> p.Some? && c.expiration <= p.value)
  {
    if cells != [] {
      PreviousMeaning(cells[..|cells| - 1], anchor);
      assert cells == cells[..|cells| - 1] + [cells[|cells| - 1]];
      assert cells[|cells| - 1] in cells;
    }
  }

  lemma {:induction false} NextMeaning(cells: seq<Cell>, anchor: Date)
    ensures var n := Next(cells, anchor);
      && (n.Some? ==> n.value > anchor && exists c :: c in cells && c.expiration == n.value)
      && (forall c :: c in cells && c.expiration > anchor ==> n.Some? && n.value <= c.expiration)
  {
    if cells != [] {
      NextMeaning(cells[..|cells| - 1], anchor);
      assert cells == cells[..|cells| - 1] + [cells[|cells| - 1]];
      assert cells[|cells| - 1] in cells;
    }
  }

  lemma NeighboursIgnoreOrder(s: seq<Cell>, t: seq<Cell>, anchor: Date)
    requires SameCells(s, t)
    ensures Previous(s, anchor) == Previous(t, anchor) && Next(s, anchor) == Next(t, anchor)
  {
    PreviousMeaning(s, anchor);
    PreviousMeaning(t, anchor);
    NextMeaning(s, anchor);
    NextMeaning(t, anchor);
  }

  ghost predicate OnePerSpot(cells: seq<Cell>) {
    forall x, y :: x in cells && y in cells && SameSpot(x, y) ==> x == y
  }

  lemma {:induction false} FirstAtMeaning(cells: seq<Cell>, e: Date, k: real)
    ensures var f := FirstAt(cells, e, k);
      && (f.Some? ==> f.value in cells && f.value.expiration == e && f.value.strike == k)
      && (f.None? ==> forall c :: c in cells ==> !(c.expiration == e && c.strike == k))
  {
    if cells != [] {
      FirstAtMeaning(cells[..|cells| - 1], e, k);
      assert cells == cells[..|cells| - 1] + [cells[|cells| - 1]];
    }
  }

  lemma FirstAtIgnoresOrder(s: seq<Cell>, t: seq<Cell>, e: Date, k: real)
    requires SameCells(s, t) && OnePerSpot(s)
    ensures FirstAt(s, e, k) == FirstAt(t, e, k)
  {
    FirstAtMeaning(s, e, k);
    FirstAtMeaning(t, e, k);
    var a, b := FirstAt(s, e, k), FirstAt(t, e, k);
    if a.Some? && b.Some? { assert SameSpot(a.value, b.value); }
  }

  lemma UniqueMembers(cells: seq<Cell>)
    requires UniqueCells(cells)
    ensures OnePerSpot(cells)
  {
    forall x, y | x in cells && y in cells && SameSpot(x, y)
      ensures x == y
    {
      var i :| 0 <= i < |cells| && cells[i] == x;
      var j :| 0 <= j < |cells| && cells[j] == y;
    }
  }

  lemma LadderAt(cells: seq<Cell>, anchor: Date)
    requires OnePerSpot(cells)
    ensures OnePerSpot(Netted(cells)) && Ladder(At(Netted(cells), anchor))
  {
    FilterMembers(cells, (c: Cell) => c.net.Some?);
    FilterMembers(Netted(cells), (c: Cell) => c.expiration == anchor);
  }

  lemma EvidenceIgnoresOrder(s: seq<Cell>, t: seq<Cell>, e: Option<Date>, floor: Option<Cell>)
    requires SameCells(s, t) && OnePerSpot(s)
    ensures SameStrike(s, e, floor) == SameStrike(t, e, floor)
    ensures EvidenceV3(s, e, floor) == EvidenceV3(t, e, floor)
  {
    if e.Some? && floor.Some? { FirstAtIgnoresOrder(s, t, e.value, floor.value.strike); }
  }

  lemma NettedSame(s: seq<Cell>, t: seq<Cell>, anchor: Date)
    requires SameCells(s, t)
    ensures SameCells(Netted(s), Netted(t)) && SameCells(At(Netted(s), anchor), At(Netted(t), anchor))
  {
    FilterSame(s, t, (c: Cell) => c.net.Some?);
    FilterSame(Netted(s), Netted(t), (c: Cell) => c.expiration == anchor);
  }

  lemma EmptyTogether(s: seq<Cell>, t: seq<Cell>)
    requires SameCells(s, t)
    ensures s == [] <==> t == []
  {
    assert s != [] ==> s[0] in t;
    assert t != [] ==> t[0] in s;
  }

  /** The vNext reading of a surface with unique cells does not depend on cell order. */
  lemma ContextIgnoresOrder(h: Heatmap, cells: seq<Cell>, anchor: Date)
    requires UniqueCells(h.cells) && SameCells(h.cells, cells)
    ensures ContextForExpiry(Some(h), anchor) == ContextForExpiry(Some(h.(cells := cells)), anchor)
  {
    if h.spot.Some? {
      UniqueMembers(h.cells);
      LadderAt(h.cells, anchor);
      NettedSame(h.cells, cells, anchor);
      var s, t := Netted(h.cells), Netted(cells);
      EmptyTogether(At(s, anchor), At(t, anchor));
      ChoicesIgnoreOrder(At(s, anchor), At(t, anchor), h.spot.value);
      NeighboursIgnoreOrder(s, t, anchor);
      var floor := Best(PositiveBelow(At(s, anchor), h.spot.value), StrongerFloor);
      EvidenceIgnoresOrder(s, t, Previous(s, anchor), floor);
      EvidenceIgnoresOrder(s, t, Next(s, anchor), floor);
    }
  }

  lemma SortedOnce(ladder: seq<Cell>)
    requires Ladder(ladder) && Distinct(ladder)
    ensures StrictlySortedBy(StrikeLeq, StableSort(StrikeLeq, ladder))
    ensures SameCells(ladder, StableSort(StrikeLeq, ladder))
  {
    SortKeeps(StrikeLeq, ladder);
    SortDistinct(StrikeLeq, ladder);
    var s := StableSort(StrikeLeq, ladder);
    forall i, j | 0 <= i < j < |s|
      ensures StrikeLeq(s[i], s[j]) && !StrikeLeq(s[j], s[i])
    {
      assert s[i] in s && s[j] in s && s[i] != s[j];
    }
  }

  lemma LadderDistinct(cells: seq<Cell>, anchor: Date)
    requires UniqueCells(cells)
    ensures Ladder(At(Netted(cells), anchor)) && Distinct(At(Netted(cells), anchor))
  {
    UniqueMembers(cells);
    LadderAt(cells, anchor);
    assert forall i, j :: 0 <= i < j < |cells| ==> !SameSpot(cells[i], cells[j]);
    FilterDistinct(cells, (c: Cell) => c.net.Some?);
    FilterDistinct(Netted(cells), (c: Cell) => c.expiration == anchor);
  }

  lemma LaddersSortAlike(s: seq<Cell>, t: seq<Cell>, anchor: Date)
    requires UniqueCells(s) && UniqueCells(t) && SameCells(s, t)
    ensures StableSort(StrikeLeq, At(Netted(s), anchor)) == StableSort(StrikeLeq, At(Netted(t), anchor))
  {
    NettedSame(s, t, anchor);
    LadderDistinct(s, anchor);
    LadderDistinct(t, anchor);
    SortedOnce(At(Netted(s), anchor));
    SortedOnce(At(Netted(t), anchor));
    SortedIsUnique(StrikeLeq, StableSort(StrikeLeq, At(Netted(s), anchor)), StableSort(StrikeLeq, At(Netted(t), anchor)));
  }

  lemma EvidenceAlike(s: seq<Cell>, t: seq<Cell>, anchor: Date, floor: Option<Cell>)
    requires UniqueCells(s) && SameCells(s, t)
    ensures EvidenceV3(Netted(s), Previous(Netted(s), anchor), floor) == EvidenceV3(Netted(t), Previous(Netted(t), anchor), floor)
    ensures EvidenceV3(Netted(s), Next(Netted(s), anchor), floor) == EvidenceV3(Netted(t), Next(Netted(t), anchor), floor)
  {
    UniqueMembers(s);
    LadderAt(s, anchor);
    NettedSame(s, t, anchor);
    NeighboursIgnoreOrder(Netted(s), Netted(t), anchor);
    EvidenceIgnoresOrder(Netted(s), Netted(t), Previous(Netted(s), anchor), floor);
    EvidenceIgnoresOrder(Netted(s), Netted(t), Next(Netted(s), anchor), floor);
  }

  /** The v3 reading of a surface with unique cells does not depend on cell order. */
  lemma StructureIgnoresOrder(h: Heatmap, cells: seq<Cell>, anchor: Date, given: Option<real>)
    requires UniqueCells(h.cells) && UniqueCells(cells) && SameCells(h.cells, cells)
    ensures BuildStructure(h, anchor, given) == BuildStructure(h.(cells := cells), anchor, given)
  {
    LaddersSortAlike(h.cells, cells, anchor);
    var spot := if given.Some? then given else h.spot;
    if spot.Some? {
      var ladder := StableSort(StrikeLeq, At(Netted(h.cells), anchor));
      EvidenceAlike(h.cells, cells, anchor, Best(PositiveBelow(ladder, spot.value), StrongerFloor));
    }
  }

  /** Sorting keeps cells unique. */
  lemma UniqueAfterSort(cells: seq<Cell>, leq: (Cell, Cell) -> bool)
    requires UniqueCells(cells)
    ensures UniqueCells(StableSort(leq, cells)) && SameCells(cells, StableSort(leq, cells))
  {
    UniqueMembers(cells);
    assert Distinct(cells);
    SortDistinct(leq, cells);
    var s := StableSort(leq, cells);
    forall i, j | 0 <= i < j < |s|
      ensures !SameSpot(s[i], s[j])
    {
      assert s[i] in cells && s[j] in cells && s[i] != s[j];
    }
  }
}
