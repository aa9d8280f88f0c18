/** Active corporate actions: the latest revision of each event, if known and price-scale changing. */
module CorporateActions {
  import opened Prelude
  import opened TradingCalendar

  datatype ActionType = Split | ReverseSplit | StockDividend | SpinOff | SpecialDistribution | OtherPriceScaleChanging

  datatype CorporateAction = CorporateAction(
    id: int, ticker: Ticker, effectiveSession: Date, actionType: ActionType, priceScaleChanging: bool,
    known: bool, sourceName: int, sourceReference: int, revision: nat)

  datatype EventKey = EventKey(ticker: Ticker, effectiveSession: Date, actionType: ActionType, sourceName: int, sourceReference: int)

  function KeyOf(a: CorporateAction): EventKey {
    EventKey(a.ticker, a.effectiveSession, a.actionType, a.sourceName, a.sourceReference)
  }

  ghost predicate UniqueActionIds(actions: seq<CorporateAction>) {
    forall i, j :: 0 <= i < j < |actions| ==> actions[i].id != actions[j].id
  }

  /** Query order: ticker, effective session, revision, id. */
  predicate QueryLeq(a: CorporateAction, b: CorporateAction) {
    if a.ticker != b.ticker then a.ticker < b.ticker
    else if a.effectiveSession != b.effectiveSession then a.effectiveSession < b.effectiveSession
    else if a.revision != b.revision then a.revision < b.revision
    else a.id <= b.id
  }

  predicate ResultLeq(a: CorporateAction, b: CorporateAction) {
    a.effectiveSession < b.effectiveSession || (a.effectiveSession == b.effectiveSession && a.id <= b.id)
  }

  /** Within one event, a later revision wins (the id breaks a tie). */
  predicate RevisionLeq(a: CorporateAction, b: CorporateAction) {
    a.revision < b.revision || (a.revision == b.revision && a.id <= b.id)
  }

  predicate IsCurrentRevision(actions: seq<CorporateAction>, a: CorporateAction) {
    forall i :: 0 <= i < |actions| && KeyOf(actions[i]) == KeyOf(a) ==> RevisionLeq(actions[i], a)
  }

  predicate IsActive(actions: seq<CorporateAction>, ticker: Ticker, a: CorporateAction) {
    a.ticker == ticker && a.known && a.priceScaleChanging && IsCurrentRevision(actions, a)
  }

  /** The reference definition of a ticker's active actions. */
  function ActiveFor(actions: seq<CorporateAction>, ticker: Ticker): seq<CorporateAction> {
    StableSort(ResultLeq, Filter(actions, a => IsActive(actions, ticker, a)))
  }

  lemma ActiveMembers(actions: seq<CorporateAction>, ticker: Ticker)
    ensures forall a :: a in ActiveFor(actions, ticker) <==> a in actions && IsActive(actions, ticker, a)
  {
    FilterMembers(actions, a => IsActive(actions, ticker, a));
    SortDistinct(ResultLeq, Filter(actions, a => IsActive(actions, ticker, a)));
  }

  /** A newer revision of the same event ends the activity of the older ones: retraction works. */
  lemma NewerRevisionDeactivates(actions: seq<CorporateAction>, ticker: Ticker, a: CorporateAction, b: CorporateAction)
    requires a in actions && b in actions && KeyOf(a) == KeyOf(b) && a.revision < b.revision
    ensures a !in ActiveFor(actions, ticker)
    ensures b in ActiveFor(actions, ticker) ==> b.known
  {
    ActiveMembers(actions, ticker);
    var i :| 0 <= i < |actions| && actions[i] == b;
  }

  type Latest = map<EventKey, CorporateAction>

  function ActionsAt(m: map<Ticker, seq<CorporateAction>>, ticker: Ticker): seq<CorporateAction> {
    if ticker in m then m[ticker] else []
  }

  /** Every row is superseded by, or is, the survivor of its key. */
  ghost predicate Survivors(rows: seq<CorporateAction>, latest: Latest, keys: seq<EventKey>) {
    && Distinct(keys) && (forall k :: k in keys <==> k in latest)
    && (forall k :: k in latest ==> KeyOf(latest[k]) == k && latest[k] in rows)
    && (forall a :: a in rows ==> KeyOf(a) in latest && RevisionLeq(a, latest[KeyOf(a)]))
  }

  lemma SurvivorsStep(rows: seq<CorporateAction>, latest: Latest, keys: seq<EventKey>, row: CorporateAction)
    requires Survivors(rows, latest, keys)
    requires forall a :: a in rows && KeyOf(a) == KeyOf(row) ==> RevisionLeq(a, row)
    ensures var key := KeyOf(row);
      Survivors(rows + [row], latest[key := row], if key in latest then keys else keys + [key])
  {
    var key := KeyOf(row);
    var latest', rows' := latest[key := row], rows + [row];
    forall k | k in latest'
      ensures KeyOf(latest'[k]) == k && latest'[k] in rows'
    {
      if k != key { assert latest[k] in rows; }
    }
    forall a | a in rows'
      ensures KeyOf(a) in latest' && RevisionLeq(a, latest'[KeyOf(a)])
    {
      assert a in rows || a == row;
    }
  }

  /** Overwrites `latest[key]` row by row; `keys` is the dictionary's key order. */
  method LatestRevisions(rows: seq<CorporateAction>) returns (latest: Latest, keys: seq<EventKey>)
    requires SortedBy(QueryLeq, rows)
    ensures Survivors(rows, latest, keys)
  {
    latest, keys := map[], [];
    for i := 0 to |rows|
      invariant Survivors(rows[..i], latest, keys)
    {
      var key := KeyOf(rows[i]);
      assert rows[..i + 1] == rows[..i] + [rows[i]];
      forall a | a in rows[..i] && KeyOf(a) == key
        ensures RevisionLeq(a, rows[i])
      {
        var j :| 0 <= j < i && rows[j] == a;
        assert QueryLeq(rows[j], rows[i]);
      }
      SurvivorsStep(rows[..i], latest, keys, rows[i]);
      if key !in latest { keys := keys + [key]; }
      latest := latest[key := rows[i]];
    }
    assert rows[..|rows|] == rows;
  }

  predicate Kept(latest: Latest, keys: seq<EventKey>, t: Ticker, a: CorporateAction) {
    KeyOf(a) in keys && KeyOf(a) in latest && latest[KeyOf(a)] == a && a.ticker == t && a.known && a.priceScaleChanging
  }

  type Grouped = map<Ticker, seq<CorporateAction>>

  /** `result` lists, ticker by ticker and once each, the kept survivors of the given keys. */
  ghost predicate ListsActive(result: Grouped, latest: Latest, keys: seq<EventKey>) {
    && (forall t, a :: a in ActionsAt(result, t) <==> Kept(latest, keys, t, a))
    && (forall t :: Distinct(ActionsAt(result, t)))
    && (forall t :: t in result ==> result[t] != [])
  }

  function Added(result: Grouped, row: CorporateAction): Grouped {
    if row.known && row.priceScaleChanging then result[row.ticker := ActionsAt(result, row.ticker) + [row]] else result
  }

  lemma GroupStep(result: Grouped, latest: Latest, keys: seq<EventKey>, key: EventKey)
    requires ListsActive(result, latest, keys) && key !in keys && key in latest && KeyOf(latest[key]) == key
    ensures ListsActive(Added(result, latest[key]), latest, keys + [key])
  {
    var row := latest[key];
    var result', keys' := Added(result, row), keys + [key];
    forall t, a
      ensures Kept(latest, keys', t, a)
         <==> Kept(latest, keys, t, a) || (a == row && t == row.ticker && row.known && row.priceScaleChanging)
    {
    }
    assert !Kept(latest, keys, row.ticker, row);
    forall t
      ensures ActionsAt(result', t)
           == ActionsAt(result, t) + (if t == row.ticker && row.known && row.priceScaleChanging then [row] else [])
    {
    }
    forall t
      ensures Distinct(ActionsAt(result', t))
    {
      assert Distinct(ActionsAt(result, t));
    }
  }

  /** Keeps the known price-scale survivors, ticker by ticker. */
  method GroupActive(latest: Latest, keys: seq<EventKey>) returns (result: Grouped)
    requires Distinct(keys) && forall k :: k in keys ==> k in latest && KeyOf(latest[k]) == k
    ensures ListsActive(result, latest, keys)
  {
    result := map[];
    for i := 0 to |keys|
      invariant ListsActive(result, latest, keys[..i])
    {
      var row := latest[keys[i]];
      assert keys[..i + 1] == keys[..i] + [keys[i]];
      assert keys[i] !in keys[..i];
      GroupStep(result, latest, keys[..i], keys[i]);
      if row.known && row.priceScaleChanging {
        result := result[row.ticker := ActionsAt(result, row.ticker) + [row]];
      }
    }
    assert keys[..|keys|] == keys;
  }

  method ActiveCorporateActions(actions: seq<CorporateAction>, tickers: set<Ticker>)
    returns (result: map<Ticker, seq<CorporateAction>>)
    requires UniqueActionIds(actions)
    ensures forall t :: t in tickers ==> ActionsAt(result, t) == ActiveFor(actions, t)
    ensures result.Keys <= tickers
  {
    var rows := StableSort(QueryLeq, Filter(actions, (a: CorporateAction) => a.ticker in tickers));
    QueryRows(actions, tickers);
    var latest, keys := LatestRevisions(rows);
    LatestIsCurrent(actions, tickers, rows, latest, keys);
    var grouped := GroupActive(latest, keys);
    forall t | t in tickers
      ensures StableSort(ResultLeq, ActionsAt(grouped, t)) == ActiveFor(actions, t)
    {
      SortedActiveIsUnique(actions, t, ActionsAt(grouped, t));
    }
    forall t | t in grouped
      ensures t in tickers
    {
      assert grouped[t][0] in ActionsAt(grouped, t);
    }
    result := map t | t in grouped :: StableSort(ResultLeq, grouped[t]);
  }

  lemma QueryRows(actions: seq<CorporateAction>, tickers: set<Ticker>)
    ensures var rows := StableSort(QueryLeq, Filter(actions, (a: CorporateAction) => a.ticker in tickers));
      && SortedBy(QueryLeq, rows)
      && forall a :: a in rows <==> a in actions && a.ticker in tickers
  {
    var selected := Filter(actions, (a: CorporateAction) => a.ticker in tickers);
    FilterMembers(actions, (a: CorporateAction) => a.ticker in tickers);
    SortDistinct(QueryLeq, selected);
    SortKeeps(QueryLeq, selected);
  }

  /** The survivor of each key is exactly its current revision. */
  lemma LatestIsCurrent(
      actions: seq<CorporateAction>, tickers: set<Ticker>, rows: seq<CorporateAction>, latest: Latest, keys: seq<EventKey>)
    requires UniqueActionIds(actions) && Survivors(rows, latest, keys)
    requires forall a :: a in rows <==> a in actions && a.ticker in tickers
    ensures forall a, t :: t in tickers ==> (Kept(latest, keys, t, a) <==> a in actions && IsActive(actions, t, a))
    ensures forall k :: k in latest ==> latest[k].ticker in tickers
  {
    forall a | a in actions && a.ticker in tickers
      ensures IsCurrentRevision(actions, a) <==> latest[KeyOf(a)] == a
    {
      var top := latest[KeyOf(a)];
      assert a in rows && top in rows && RevisionLeq(a, top);
      var m :| 0 <= m < |actions| && actions[m] == top;
      var n :| 0 <= n < |actions| && actions[n] == a;
      if IsCurrentRevision(actions, a) {
        assert RevisionLeq(actions[m], a);
        assert m == n;
      }
      if top == a {
        forall i | 0 <= i < |actions| && KeyOf(actions[i]) == KeyOf(a)
          ensures RevisionLeq(actions[i], a)
        {
          assert actions[i].ticker == KeyOf(a).ticker && actions[i] in rows;
        }
      }
    }
    forall a, t | t in tickers
      ensures Kept(latest, keys, t, a) <==> a in actions && IsActive(actions, t, a)
    {
      if Kept(latest, keys, t, a) { assert latest[KeyOf(a)] in rows; }
      if a in actions && IsActive(actions, t, a) { assert a in rows; }
    }
  }

  lemma SortedActiveIsUnique(actions: seq<CorporateAction>, t: Ticker, s: seq<CorporateAction>)
    requires UniqueActionIds(actions) && Distinct(s)
    requires forall a :: a in s <==> a in actions && IsActive(actions, t, a)
    ensures StableSort(ResultLeq, s) == ActiveFor(actions, t)
  {
    var active := Filter(actions, a => IsActive(actions, t, a));
    FilterMembers(actions, a => IsActive(actions, t, a));
    FilterUnique(actions, a => IsActive(actions, t, a));
    StrictByEffect(actions, s);
    StrictByEffect(actions, active);
    SortDistinct(ResultLeq, s);
    SortDistinct(ResultLeq, active);
    SortedIsUnique(ResultLeq, StableSort(ResultLeq, s), ActiveFor(actions, t));
  }

  lemma {:induction false} FilterUnique(actions: seq<CorporateAction>, keep: CorporateAction -> bool)
    requires UniqueActionIds(actions)
    ensures Distinct(Filter(actions, keep))
  {
    if actions != [] {
      FilterUnique(actions[..|actions| - 1], keep);
      FilterMembers(actions[..|actions| - 1], keep);
    }
  }

  lemma StrictByEffect(actions: seq<CorporateAction>, s: seq<CorporateAction>)
    requires UniqueActionIds(actions) && Distinct(s)
    requires forall a :: a in s ==> a in actions
    ensures StrictlySortedBy(ResultLeq, StableSort(ResultLeq, s))
  {
    var r := StableSort(ResultLeq, s);
    SortDistinct(ResultLeq, s);
    SortKeeps(ResultLeq, s);
    forall i, j | 0 <= i < j < |r|
      ensures ResultLeq(r[i], r[j]) && !ResultLeq(r[j], r[i])
    {
      assert r[i] in s && r[j] in s;
      var m :| 0 <= m < |actions| && actions[m] == r[i];
      var n :| 0 <= n < |actions| && actions[n] == r[j];
      assert m != n;
    }
  }
}
