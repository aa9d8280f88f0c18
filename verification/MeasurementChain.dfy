/** The append-only measurement table: one revision chain per (sample, horizon). */
module MeasurementChain {
  import opened Prelude
  import opened TradingCalendar
  import opened OutcomeProposals

  /** A row's id is its position in the table; its fingerprint stands for its whole content. */
  datatype Measurement = Measurement(
    sample: nat, content: Content, revision: nat, supersedes: Option<nat>, calculatedAt: Instant)

  type Table = seq<Measurement>

  predicate Of(m: Measurement, sample: nat, h: int) {
    m.sample == sample && m.content.horizon == h
  }

  /** The query for the latest row: greatest revision first. */
  function QueryLatest(ms: Table, sample: nat, h: int): (r: Option<nat>)
    ensures r.Some? ==> r.value < |ms| && Of(ms[r.value], sample, h)
  {
    if ms == [] then None
    else
      var best, k := QueryLatest(ms[..|ms| - 1], sample, h), |ms| - 1;
      if Of(ms[k], sample, h) && (best.None? || ms[best.value].revision <= ms[k].revision) then Some(k) else best
  }

  /** The table after `_append_measurement_if_changed`. */
  function AppendIfChanged(ms: Table, sample: nat, content: Content, t: Instant): Table {
    var latest := QueryLatest(ms, sample, content.horizon);
    if latest.Some? && ms[latest.value].content == content then ms
    else
      var revision := if latest.None? then 1 else ms[latest.value].revision + 1;
      ms + [Measurement(sample, content, revision, latest, t)]
  }

  /** `m` continues the chain that `ms` holds for its sample and horizon. */
  predicate Continues(ms: Table, m: Measurement) {
    var latest := QueryLatest(ms, m.sample, m.content.horizon);
    && ContentChecks(m.content)
    && m.supersedes == latest
    && m.revision == (if latest.None? then 1 else ms[latest.value].revision + 1)
    && (latest.Some? ==> ms[latest.value].content != m.content)
  }

  predicate RowContinues(ms: Table, k: nat)
    requires k < |ms|
  {
    Continues(ms[..k], ms[k])
  }

  ghost predicate ValidTable(ms: Table) {
    forall k :: 0 <= k < |ms| ==> RowContinues(ms, k)
  }

  lemma AppendKeepsValid(ms: Table, sample: nat, content: Content, t: Instant)
    requires ValidTable(ms) && ContentChecks(content)
    ensures ValidTable(AppendIfChanged(ms, sample, content, t))
    ensures ms <= AppendIfChanged(ms, sample, content, t)
  {
    var ms' := AppendIfChanged(ms, sample, content, t);
    forall k | 0 <= k < |ms'|
      ensures RowContinues(ms', k)
    {
      if k < |ms| {
        assert RowContinues(ms, k) && ms'[..k] == ms[..k];
      } else {
        assert ms'[..k] == ms;
      }
    }
  }

  lemma ValidPrefix(ms: Table, k: nat)
    requires ValidTable(ms) && k <= |ms|
    ensures ValidTable(ms[..k])
  {
    forall i | 0 <= i < k
      ensures RowContinues(ms[..k], i)
    {
      assert RowContinues(ms, i) && ms[..k][..i] == ms[..i];
    }
  }

  // ---------------------------------------------------------------- the chain of one (sample, horizon)

  /** Ids of the chain's rows, oldest first. */
  function ChainIds(ms: Table, sample: nat, h: int): (ids: seq<nat>)
    ensures forall i :: 0 <= i < |ids| ==> ids[i] < |ms| && Of(ms[ids[i]], sample, h)
  {
    if ms == [] then []
    else
      var front, k := ChainIds(ms[..|ms| - 1], sample, h), |ms| - 1;
      if Of(ms[k], sample, h) then front + [k] else front
  }

  function Contents(ms: Table, sample: nat, h: int): seq<Content> {
    var ids := ChainIds(ms, sample, h);
    seq(|ids|, i requires 0 <= i < |ids| => ms[ids[i]].content)
  }

  lemma {:induction false} ChainIdsComplete(ms: Table, sample: nat, h: int)
    ensures forall k :: 0 <= k < |ms| ==> (k in ChainIds(ms, sample, h) <==> Of(ms[k], sample, h))
  {
    if ms != [] {
      ChainIdsComplete(ms[..|ms| - 1], sample, h);
    }
  }

  /** Row number `i` of a chain: revision i + 1, superseding and differing from its predecessor. */
  predicate Link(ms: Table, ids: seq<nat>, i: nat)
    requires i < |ids| && forall j :: 0 <= j < |ids| ==> ids[j] < |ms|
  {
    && ms[ids[i]].revision == i + 1
    && (i == 0 ==> ms[ids[i]].supersedes == None)
    && (i > 0 ==> ids[i - 1] < ids[i] && ms[ids[i]].supersedes == Some(ids[i - 1])
                  && ms[ids[i]].content != ms[ids[i - 1]].content)
  }

  /** The latest row by revision is the chain's last row in table order. */
  lemma {:induction false} LatestIsLast(ms: Table, sample: nat, h: int)
    requires ValidTable(ms)
    ensures var ids := ChainIds(ms, sample, h);
      QueryLatest(ms, sample, h) == (if ids == [] then None else Some(ids[|ids| - 1]))
  {
    if ms != [] {
      ValidPrefix(ms, |ms| - 1);
      LatestIsLast(ms[..|ms| - 1], sample, h);
      assert RowContinues(ms, |ms| - 1);
    }
  }

  lemma LinkInPrefix(ms: Table, k: nat, ids: seq<nat>, ids': seq<nat>, i: nat)
    requires k <= |ms| && i < |ids| && ids <= ids'
    requires forall j :: 0 <= j < |ids| ==> ids[j] < k
    requires forall j :: 0 <= j < |ids'| ==> ids'[j] < |ms|
    requires Link(ms[..k], ids, i)
    ensures Link(ms, ids', i)
  {
    assert ms[..k][ids[i]] == ms[ids'[i]];
    if i > 0 { assert ms[..k][ids[i - 1]] == ms[ids'[i - 1]]; }
  }

  /** The revisions of a chain are exactly 1..n in table order; each row supersedes its
      predecessor and differs from it. */
  lemma {:induction false} ChainShape(ms: Table, sample: nat, h: int)
    requires ValidTable(ms)
    ensures forall i :: 0 <= i < |ChainIds(ms, sample, h)| ==> Link(ms, ChainIds(ms, sample, h), i)
  {
    if ms != [] {
      var k := |ms| - 1;
      var ids, ids' := ChainIds(ms[..k], sample, h), ChainIds(ms, sample, h);
      ValidPrefix(ms, k);
      ChainShape(ms[..k], sample, h);
      LatestIsLast(ms[..k], sample, h);
      forall i | 0 <= i < |ids'|
        ensures Link(ms, ids', i)
      {
        if i < |ids| {
          LinkInPrefix(ms, k, ids, ids', i);
        } else {
          assert RowContinues(ms, k);
          if i > 0 {
            assert Link(ms[..k], ids, i - 1);
            assert ms[..k][ids[i - 1]] == ms[ids[i - 1]];
          }
        }
      }
    }
  }

  /** A chain grows by `content` unless it already ends with it. */
  function Push(cs: seq<Content>, content: Content): seq<Content> {
    if cs != [] && cs[|cs| - 1] == content then cs else cs + [content]
  }

  lemma ContentsGrow(ms: Table, m: Measurement, s: nat, h: int)
    ensures Contents(ms + [m], s, h) == Contents(ms, s, h) + (if Of(m, s, h) then [m.content] else [])
  {
    var ms' := ms + [m];
    assert ms'[..|ms'| - 1] == ms;
  }

  lemma ContentsEnd(ms: Table, s: nat, h: int)
    requires ValidTable(ms)
    ensures var latest := QueryLatest(ms, s, h);
      && (latest.None? <==> Contents(ms, s, h) == [])
      && (latest.Some? ==> ms[latest.value].content == Contents(ms, s, h)[|Contents(ms, s, h)| - 1])
  {
    LatestIsLast(ms, s, h);
  }

  /** One append pushes onto its own chain and leaves every other chain alone. */
  lemma AppendPushes(ms: Table, sample: nat, content: Content, t: Instant, s: nat, h: int)
    requires ValidTable(ms)
    ensures var ms' := AppendIfChanged(ms, sample, content, t);
      Contents(ms', s, h)
      == if s == sample && h == content.horizon then Push(Contents(ms, s, h), content) else Contents(ms, s, h)
  {
    ContentsEnd(ms, sample, content.horizon);
    var ms' := AppendIfChanged(ms, sample, content, t);
    if ms' != ms {
      ContentsGrow(ms, ms'[|ms|], s, h);
      assert ms' == ms + [ms'[|ms|]];
    }
  }

  // ---------------------------------------------------------------- a whole pass over proposals

  datatype Item = Item(sample: nat, content: Content)

  function AppendAll(ms: Table, items: seq<Item>, t: Instant): Table {
    if items == [] then ms
    else
      var last := items[|items| - 1];
      AppendIfChanged(AppendAll(ms, items[..|items| - 1], t), last.sample, last.content, t)
  }

  ghost predicate ItemsChecked(items: seq<Item>) {
    forall i :: 0 <= i < |items| ==> ContentChecks(items[i].content)
  }

  /** At most one item per (sample, horizon). */
  ghost predicate DistinctKeys(items: seq<Item>) {
    forall i, j :: 0 <= i < j < |items| ==>
      items[i].sample != items[j].sample || items[i].content.horizon != items[j].content.horizon
  }

  lemma {:induction false} AppendAllKeepsValid(ms: Table, items: seq<Item>, t: Instant)
    requires ValidTable(ms) && ItemsChecked(items)
    ensures ValidTable(AppendAll(ms, items, t)) && ms <= AppendAll(ms, items, t)
  {
    if items != [] {
      AppendAllKeepsValid(ms, items[..|items| - 1], t);
      var last := items[|items| - 1];
      AppendKeepsValid(AppendAll(ms, items[..|items| - 1], t), last.sample, last.content, t);
    }
  }

  lemma {:induction false} AppendAllOthers(ms: Table, items: seq<Item>, t: Instant, s: nat, h: int)
    requires ValidTable(ms) && ItemsChecked(items)
    requires forall i :: 0 <= i < |items| ==> items[i].sample != s || items[i].content.horizon != h
    ensures Contents(AppendAll(ms, items, t), s, h) == Contents(ms, s, h)
  {
    if items != [] {
      var front, last := items[..|items| - 1], items[|items| - 1];
      AppendAllOthers(ms, front, t, s, h);
      AppendAllKeepsValid(ms, front, t);
      AppendPushes(AppendAll(ms, front, t), last.sample, last.content, t, s, h);
    }
  }

  /** After a pass, each item's chain is its old chain with the item pushed: at most one new
      revision, and the newest content is the item's. */
  lemma {:induction false} AppendAllPushes(ms: Table, items: seq<Item>, t: Instant, i: nat)
    requires ValidTable(ms) && ItemsChecked(items) && DistinctKeys(items) && i < |items|
    ensures Contents(AppendAll(ms, items, t), items[i].sample, items[i].content.horizon)
         == Push(Contents(ms, items[i].sample, items[i].content.horizon), items[i].content)
  {
    var front, last := items[..|items| - 1], items[|items| - 1];
    var s, h := items[i].sample, items[i].content.horizon;
    AppendAllKeepsValid(ms, front, t);
    AppendPushes(AppendAll(ms, front, t), last.sample, last.content, t, s, h);
    if i == |items| - 1 {
      AppendAllOthers(ms, front, t, s, h);
    } else {
      AppendAllPushes(ms, front, t, i);
    }
  }

  /** A pass whose items all match the newest rows inserts nothing. */
  lemma {:induction false} AppendAllIdle(ms: Table, items: seq<Item>, t: Instant)
    requires forall i :: 0 <= i < |items| ==>
      var latest := QueryLatest(ms, items[i].sample, items[i].content.horizon);
      latest.Some? && ms[latest.value].content == items[i].content
    ensures AppendAll(ms, items, t) == ms
  {
    if items != [] {
      var front := items[..|items| - 1];
      assert forall i :: 0 <= i < |front| ==> front[i] == items[i];
      AppendAllIdle(ms, front, t);
    }
  }
}
