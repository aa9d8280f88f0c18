/** The canonical daily series: one unambiguous regular row per trading date. */
module CanonicalDaily {
  import opened Prelude
  import opened TradingCalendar

  /** A trading-date text, represented by its rank in string order. */
  type Text = int

  /** One vendor bar; `text` is None when its trading date is not a string. */
  datatype Bar = Bar(text: Option<Text>, regular: bool, close: Option<real>)

  datatype Series = Series(observations: seq<Bar>, missing: seq<Text>, ambiguous: seq<Text>)

  predicate TextLeq(a: Text, b: Text) { a <= b }

  predicate BarLeq(a: Bar, b: Bar) {
    a.text.None? || (b.text.Some? && a.text.value <= b.text.value)
  }

  predicate Dated(b: Bar, t: Text) { b.text == Some(t) }

  function RowsOf(bars: seq<Bar>, t: Text): seq<Bar> {
    Filter(bars, b => Dated(b, t))
  }

  function RegularRows(bars: seq<Bar>, t: Text): seq<Bar> {
    Filter(RowsOf(bars, t), (b: Bar) => b.regular)
  }

  /** The distinct date texts, in order of first appearance (the keys of the grouping dict). */
  function DatesSeen(bars: seq<Bar>): seq<Text> {
    if bars == [] then []
    else
      var ts, b := DatesSeen(bars[..|bars| - 1]), bars[|bars| - 1];
      if b.text.Some? && b.text.value !in ts then ts + [b.text.value] else ts
  }

  function SortedDates(bars: seq<Bar>): seq<Text> {
    StableSort(TextLeq, DatesSeen(bars))
  }

  function SingleRows(bars: seq<Bar>, ts: seq<Text>): seq<Bar> {
    if ts == [] then []
    else
      var rows := RegularRows(bars, ts[|ts| - 1]);
      SingleRows(bars, ts[..|ts| - 1]) + (if |rows| == 1 then rows else [])
  }

  function Canonical(bars: seq<Bar>): Series {
    var dates := SortedDates(bars);
    Series(SingleRows(bars, dates),
           Filter(dates, t => RegularRows(bars, t) == []),
           Filter(dates, t => |RegularRows(bars, t)| > 1))
  }

  // ---------------------------------------------------------------- facts about the grouping

  lemma {:induction false} DatesSeenFacts(bars: seq<Bar>)
    ensures Distinct(DatesSeen(bars))
    ensures forall t :: t in DatesSeen(bars) <==> exists b :: b in bars && Dated(b, t)
  {
    if bars != [] {
      var front, last := bars[..|bars| - 1], bars[|bars| - 1];
      DatesSeenFacts(front);
      assert bars == front + [last];
      forall t
        ensures t in DatesSeen(bars) <==> exists b :: b in bars && Dated(b, t)
      {
        if t in DatesSeen(bars) {
          if t in DatesSeen(front) {
            var b :| b in front && Dated(b, t);
            assert b in bars;
          } else {
            assert last in bars && Dated(last, t);
          }
        }
        if b :| b in bars && Dated(b, t) {
          assert b in front || b == last;
        }
      }
    }
  }

  lemma SortedDatesFacts(bars: seq<Bar>)
    ensures StrictlySortedBy(TextLeq, SortedDates(bars))
    ensures forall t :: t in SortedDates(bars) <==> exists b :: b in bars && Dated(b, t)
  {
    DatesSeenFacts(bars);
    SortDistinct(TextLeq, DatesSeen(bars));
    SortKeeps(TextLeq, DatesSeen(bars));
  }

  lemma RegularRowsDated(bars: seq<Bar>, t: Text)
    ensures forall b :: b in RegularRows(bars, t) <==> b in bars && Dated(b, t) && b.regular
  {
    FilterMembers(bars, b => Dated(b, t));
    FilterMembers(RowsOf(bars, t), (b: Bar) => b.regular);
  }

  lemma {:induction false} SingleRowsFacts(bars: seq<Bar>, ts: seq<Text>)
    requires Distinct(ts)
    ensures Distinct(SingleRows(bars, ts))
    ensures forall b :: b in SingleRows(bars, ts)
              <==> b.text.Some? && b.text.value in ts && RegularRows(bars, b.text.value) == [b]
  {
    if ts != [] {
      var front, last := ts[..|ts| - 1], ts[|ts| - 1];
      SingleRowsFacts(bars, front);
      RegularRowsDated(bars, last);
      assert ts == front + [last] && last !in front;
      var rows := RegularRows(bars, last);
      if |rows| == 1 {
        assert rows == [rows[0]] && Dated(rows[0], last);
        assert rows[0] !in SingleRows(bars, front);
      }
      forall b
        ensures b in SingleRows(bars, ts)
           <==> b.text.Some? && b.text.value in ts && RegularRows(bars, b.text.value) == [b]
      {
      }
    }
  }

  lemma {:induction false} SingleRowsSorted(bars: seq<Bar>, ts: seq<Text>)
    requires StrictlySortedBy(TextLeq, ts)
    ensures StrictlySortedBy(BarLeq, SingleRows(bars, ts))
  {
    if ts != [] {
      var front, last := ts[..|ts| - 1], ts[|ts| - 1];
      SingleRowsSorted(bars, front);
      SingleRowsFacts(bars, front);
      RegularRowsDated(bars, last);
      var rows := RegularRows(bars, last);
      forall b | b in SingleRows(bars, front) && |rows| == 1
        ensures BarLeq(b, rows[0]) && !BarLeq(rows[0], b)
      {
        assert Dated(rows[0], last);
        var i :| 0 <= i < |front| && front[i] == b.text.value;
        assert ts[i] == b.text.value;
      }
    }
  }

  // ---------------------------------------------------------------- the grouping method

  type Groups = map<Text, seq<Bar>>

  ghost predicate GroupsOf(bars: seq<Bar>, grouped: Groups, keys: seq<Text>) {
    && keys == DatesSeen(bars)
    && (forall t :: t in grouped <==> t in keys)
    && (forall t :: t in grouped ==> grouped[t] == RowsOf(bars, t))
    && (forall t :: t !in grouped ==> RowsOf(bars, t) == [])
  }

  /** The grouping dictionary and its key order. */
  method GroupByDate(bars: seq<Bar>) returns (grouped: Groups, keys: seq<Text>)
    ensures GroupsOf(bars, grouped, keys)
  {
    grouped, keys := map[], [];
    for i := 0 to |bars|
      invariant GroupsOf(bars[..i], grouped, keys)
    {
      assert bars[..i + 1][..i] == bars[..i] && bars[..i + 1][i] == bars[i];
      if bars[i].text.Some? {
        var t := bars[i].text.value;
        if t !in grouped {
          keys := keys + [t];
          grouped := grouped[t := []];
        }
        grouped := grouped[t := grouped[t] + [bars[i]]];
      }
    }
    assert bars[..|bars|] == bars;
  }

  lemma SeriesStep(bars: seq<Bar>, keys: seq<Text>, j: nat)
    requires j < |keys|
    ensures var rows := RegularRows(bars, keys[j]);
      && SingleRows(bars, keys[..j + 1]) == SingleRows(bars, keys[..j]) + (if |rows| == 1 then [rows[0]] else [])
      && Filter(keys[..j + 1], t => RegularRows(bars, t) == [])
         == Filter(keys[..j], t => RegularRows(bars, t) == []) + (if rows == [] then [keys[j]] else [])
      && Filter(keys[..j + 1], t => |RegularRows(bars, t)| > 1)
         == Filter(keys[..j], t => |RegularRows(bars, t)| > 1) + (if |rows| > 1 then [keys[j]] else [])
  {
    assert keys[..j + 1][..j] == keys[..j] && keys[..j + 1][j] == keys[j];
  }

  /** Groups the rows by date, classifies each group and sorts: the canonical series. */
  method CanonicalRegularDaily(bars: seq<Bar>) returns (series: Series)
    ensures series == Canonical(bars)
  {
    var grouped, keys := GroupByDate(bars);
    var selected, missing, ambiguous := [], [], [];
    for j := 0 to |keys|
      invariant selected == SingleRows(bars, keys[..j])
      invariant missing == Filter(keys[..j], t => RegularRows(bars, t) == [])
      invariant ambiguous == Filter(keys[..j], t => |RegularRows(bars, t)| > 1)
    {
      SeriesStep(bars, keys, j);
      assert keys[j] in keys;
      var regular := Filter(grouped[keys[j]], (b: Bar) => b.regular);
      if |regular| == 1 {
        selected := selected + [regular[0]];
      } else if regular == [] {
        missing := missing + [keys[j]];
      } else {
        ambiguous := ambiguous + [keys[j]];
      }
    }
    assert keys[..|keys|] == keys;
    series := Series(StableSort(BarLeq, selected), StableSort(TextLeq, missing), StableSort(TextLeq, ambiguous));
    SortingSelectedRows(bars);
    SortingFilteredDates(bars, t => RegularRows(bars, t) == []);
    SortingFilteredDates(bars, t => |RegularRows(bars, t)| > 1);
  }

  lemma SortingSelectedRows(bars: seq<Bar>)
    ensures StableSort(BarLeq, SingleRows(bars, DatesSeen(bars))) == SingleRows(bars, SortedDates(bars))
  {
    var rows := SingleRows(bars, DatesSeen(bars));
    DatesSeenFacts(bars);
    SortedDatesFacts(bars);
    SingleRowsFacts(bars, DatesSeen(bars));
    SingleRowsFacts(bars, SortedDates(bars));
    SingleRowsSorted(bars, SortedDates(bars));
    SortDistinct(BarLeq, rows);
    SortKeeps(BarLeq, rows);
    var sorted := StableSort(BarLeq, rows);
    forall i, j | 0 <= i < j < |sorted|
      ensures BarLeq(sorted[i], sorted[j]) && !BarLeq(sorted[j], sorted[i])
    {
      assert sorted[i] in rows && sorted[j] in rows;
    }
    SortedIsUnique(BarLeq, sorted, SingleRows(bars, SortedDates(bars)));
  }

  lemma {:induction false} FilterStrict(ts: seq<Text>, keep: Text -> bool)
    requires StrictlySortedBy(TextLeq, ts)
    ensures StrictlySortedBy(TextLeq, Filter(ts, keep))
  {
    if ts != [] {
      FilterStrict(ts[..|ts| - 1], keep);
      FilterMembers(ts[..|ts| - 1], keep);
      var kept := Filter(ts[..|ts| - 1], keep);
      forall k | 0 <= k < |kept|
        ensures TextLeq(kept[k], ts[|ts| - 1]) && !TextLeq(ts[|ts| - 1], kept[k])
      {
        assert kept[k] in kept;
        var i :| 0 <= i < |ts| - 1 && ts[i] == kept[k];
      }
    }
  }

  /** Sorting after filtering is filtering after sorting, for distinct dates. */
  lemma SortFilter(ts: seq<Text>, keep: Text -> bool)
    requires Distinct(ts)
    ensures StableSort(TextLeq, Filter(ts, keep)) == Filter(StableSort(TextLeq, ts), keep)
  {
    var kept := Filter(ts, keep);
    FilterDistinct(ts, keep);
    SortDistinct(TextLeq, ts);
    SortKeeps(TextLeq, ts);
    SortDistinct(TextLeq, kept);
    SortKeeps(TextLeq, kept);
    FilterMembers(ts, keep);
    FilterMembers(StableSort(TextLeq, ts), keep);
    FilterStrict(StableSort(TextLeq, ts), keep);
    SortedIsUnique(TextLeq, StableSort(TextLeq, kept), Filter(StableSort(TextLeq, ts), keep));
  }

  lemma SortingFilteredDates(bars: seq<Bar>, keep: Text -> bool)
    ensures StableSort(TextLeq, Filter(DatesSeen(bars), keep)) == Filter(SortedDates(bars), keep)
  {
    DatesSeenFacts(bars);
    SortFilter(DatesSeen(bars), keep);
  }

  // ---------------------------------------------------------------- the evidence cutoff

  /** A date text that parses to a date at or before the cutoff. */
  predicate OnOrBefore(parse: Text -> Option<Date>, t: Text, cutoff: Date) {
    parse(t).Some? && parse(t).value <= cutoff
  }

  /** `_price_payload_at_or_before`: only bars provably dated by the cutoff. */
  function CutBars(bars: seq<Bar>, parse: Text -> Option<Date>, cutoff: Date): seq<Bar> {
    Filter(bars, (b: Bar) => b.text.Some? && OnOrBefore(parse, b.text.value, cutoff))
  }

  lemma {:induction false} CutRows(bars: seq<Bar>, parse: Text -> Option<Date>, cutoff: Date, t: Text)
    requires OnOrBefore(parse, t, cutoff)
    ensures RowsOf(CutBars(bars, parse, cutoff), t) == RowsOf(bars, t)
  {
    if bars != [] {
      CutRows(bars[..|bars| - 1], parse, cutoff, t);
      var cut := CutBars(bars, parse, cutoff);
      var b := bars[|bars| - 1];
      if b.text.Some? && OnOrBefore(parse, b.text.value, cutoff) {
        assert cut[..|cut| - 1] == CutBars(bars[..|bars| - 1], parse, cutoff);
      }
    }
  }

  lemma {:induction false} CutDates(bars: seq<Bar>, parse: Text -> Option<Date>, cutoff: Date)
    ensures DatesSeen(CutBars(bars, parse, cutoff)) == Filter(DatesSeen(bars), t => OnOrBefore(parse, t, cutoff))
  {
    if bars != [] {
      var front, b := bars[..|bars| - 1], bars[|bars| - 1];
      CutDates(front, parse, cutoff);
      FilterMembers(DatesSeen(front), t => OnOrBefore(parse, t, cutoff));
      var cut := CutBars(bars, parse, cutoff);
      if b.text.Some? && OnOrBefore(parse, b.text.value, cutoff) {
        assert cut[..|cut| - 1] == CutBars(front, parse, cutoff);
      }
      if b.text.Some? && b.text.value !in DatesSeen(front) {
        var ts := DatesSeen(bars);
        assert ts[..|ts| - 1] == DatesSeen(front) && ts[|ts| - 1] == b.text.value;
      }
    }
  }

  /** The rows one date contributes to the canonical series. */
  function SingleOf(bars: seq<Bar>, t: Text): seq<Bar> {
    if |RegularRows(bars, t)| == 1 then RegularRows(bars, t) else []
  }

  lemma CutSingle(bars: seq<Bar>, parse: Text -> Option<Date>, cutoff: Date, t: Text)
    ensures CutBars(SingleOf(bars, t), parse, cutoff)
         == if OnOrBefore(parse, t, cutoff) then SingleOf(CutBars(bars, parse, cutoff), t) else []
  {
    RegularRowsDated(bars, t);
    if OnOrBefore(parse, t, cutoff) { CutRows(bars, parse, cutoff, t); }
    var rows := SingleOf(bars, t);
    if rows != [] {
      assert rows[0] in RegularRows(bars, t);
      assert rows == [rows[0]] && Dated(rows[0], t);
    }
  }

  lemma {:induction false} CutSingles(bars: seq<Bar>, parse: Text -> Option<Date>, cutoff: Date, ts: seq<Text>)
    ensures SingleRows(CutBars(bars, parse, cutoff), Filter(ts, t => OnOrBefore(parse, t, cutoff)))
         == CutBars(SingleRows(bars, ts), parse, cutoff)
  {
    if ts != [] {
      var front, last := ts[..|ts| - 1], ts[|ts| - 1];
      var kept := Filter(front, t => OnOrBefore(parse, t, cutoff));
      CutSingles(bars, parse, cutoff, front);
      CutSingle(bars, parse, cutoff, last);
      assert SingleRows(bars, ts) == SingleRows(bars, front) + SingleOf(bars, last);
      FilterConcat(SingleRows(bars, front), SingleOf(bars, last),
                   (b: Bar) => b.text.Some? && OnOrBefore(parse, b.text.value, cutoff));
      assert (kept + [last])[..|kept|] == kept;
    }
  }

  lemma {:induction false} FilterAgree(ts: seq<Text>, p: Text -> bool, q: Text -> bool, keep: Text -> bool)
    requires forall t :: keep(t) ==> p(t) == q(t)
    ensures Filter(Filter(ts, keep), p) == Filter(Filter(ts, q), keep)
  {
    if ts != [] {
      var front, last := ts[..|ts| - 1], ts[|ts| - 1];
      FilterAgree(front, p, q, keep);
      if keep(last) { assert Filter(ts, keep)[..|Filter(front, keep)|] == Filter(front, keep); }
      if q(last) { assert Filter(ts, q)[..|Filter(front, q)|] == Filter(front, q); }
    }
  }

  /** Cutting the bars at the cutoff date and then taking the canonical series is the canonical
      series cut at the cutoff date: bars dated later, or undated, cannot reach the context. */
  lemma CutCommutesWithCanonical(bars: seq<Bar>, parse: Text -> Option<Date>, cutoff: Date)
    ensures var full, keep := Canonical(bars), (t => OnOrBefore(parse, t, cutoff));
      Canonical(CutBars(bars, parse, cutoff))
      == Series(CutBars(full.observations, parse, cutoff), Filter(full.missing, keep), Filter(full.ambiguous, keep))
  {
    var keep := t => OnOrBefore(parse, t, cutoff);
    var cut := CutBars(bars, parse, cutoff);
    CutDates(bars, parse, cutoff);
    DatesSeenFacts(bars);
    SortFilter(DatesSeen(bars), keep);
    assert SortedDates(cut) == Filter(SortedDates(bars), keep);
    CutSingles(bars, parse, cutoff, SortedDates(bars));
    forall t | keep(t)
      ensures RegularRows(cut, t) == RegularRows(bars, t)
    {
      CutRows(bars, parse, cutoff, t);
    }
    FilterAgree(SortedDates(bars), t => RegularRows(cut, t) == [], t => RegularRows(bars, t) == [], keep);
    FilterAgree(SortedDates(bars), t => |RegularRows(cut, t)| > 1, t => |RegularRows(bars, t)| > 1, keep);
  }
}
