/** The XNYS exchange calendar: an unbounded, strictly increasing run of session dates. */
module TradingCalendar {

  type Date = int     // days in calendar order
  type Instant = int  // UTC instants in time order
  type Ticker = int   // canonical upper-case symbols

  /** `session(i)` is the date of session number `i`, `close(i)` the instant of its official
      close, `locate(d)` the number of the last session on or before `d`, and `day(t)` the
      New York market date of an instant. */
  datatype Calendar = Calendar(
    session: int -> Date, close: int -> Instant, locate: Date -> int, day: Instant -> Date)

  predicate SessionsOrdered(c: Calendar, i: int, j: int) { i < j ==> c.session(i) < c.session(j) }

  predicate DaysOrdered(c: Calendar, s: Instant, t: Instant) { s <= t ==> c.day(s) <= c.day(t) }

  predicate Located(c: Calendar, d: Date) { c.session(c.locate(d)) <= d < c.session(c.locate(d) + 1) }

  ghost predicate ValidCalendar(c: Calendar) {
    && (forall i, j :: SessionsOrdered(c, i, j))
    && (forall d :: Located(c, d))
    && (forall i {:trigger c.close(i)} :: c.day(c.close(i)) == c.session(i))
    && (forall s, t :: DaysOrdered(c, s, t))
  }

  lemma Order(c: Calendar, i: int, j: int)
    requires ValidCalendar(c)
    ensures c.session(i) < c.session(j) <==> i < j
  {
    assert SessionsOrdered(c, i, j) && SessionsOrdered(c, j, i);
  }

  lemma Locating(c: Calendar, d: Date)
    requires ValidCalendar(c)
    ensures c.session(c.locate(d)) <= d < c.session(c.locate(d) + 1)
  {
    assert Located(c, d);
  }

  /** Against a date, session number `i` is past, present or future as `locate` says. */
  lemma LocateOrder(c: Calendar, d: Date, i: int)
    requires ValidCalendar(c)
    ensures c.session(i) <= d <==> i <= c.locate(d)
  {
    Locating(c, d);
    Order(c, i, c.locate(d));
    Order(c, c.locate(d) + 1, i);
  }

  /** Closes inherit the order of their sessions. */
  lemma ClosesIncrease(c: Calendar, i: int, j: int)
    requires ValidCalendar(c)
    ensures c.close(i) < c.close(j) <==> i < j
  {
    Order(c, i, j);
    Order(c, j, i);
    assert DaysOrdered(c, c.close(j), c.close(i)) && DaysOrdered(c, c.close(i), c.close(j));
    assert c.day(c.close(i)) == c.session(i) && c.day(c.close(j)) == c.session(j);
  }

  /** A close is behind an instant when its session is behind the instant's day, and ahead when
      its session is ahead. */
  lemma CloseAgainstDay(c: Calendar, t: Instant, i: int)
    requires ValidCalendar(c)
    ensures c.session(i) < c.day(t) ==> c.close(i) <= t
    ensures c.day(t) < c.session(i) ==> t < c.close(i)
  {
    assert c.day(c.close(i)) == c.session(i);
    assert DaysOrdered(c, t, c.close(i)) && DaysOrdered(c, c.close(i), t);
  }

  lemma LocateSession(c: Calendar, i: int)
    requires ValidCalendar(c)
    ensures c.locate(c.session(i)) == i
  {
    LocateOrder(c, c.session(i), i);
    LocateOrder(c, c.session(i), i + 1);
    Order(c, i, i + 1);
  }

  predicate IsSession(c: Calendar, d: Date) {
    c.session(c.locate(d)) == d
  }

  lemma SessionsAreSessions(c: Calendar, i: int)
    requires ValidCalendar(c)
    ensures IsSession(c, c.session(i))
  {
    LocateSession(c, i);
  }

  function NextSession(c: Calendar, d: Date): Date {
    c.session(c.locate(d) + 1)
  }

  /** The last session strictly before `d`. */
  function PreviousSession(c: Calendar, d: Date): Date {
    if IsSession(c, d) then c.session(c.locate(d) - 1) else c.session(c.locate(d))
  }

  function SessionClose(c: Calendar, d: Date): Instant {
    c.close(c.locate(d))
  }

  function AdvanceSessions(c: Calendar, start: Date, count: nat): Date {
    if count == 0 then start else NextSession(c, AdvanceSessions(c, start, count - 1))
  }

  lemma {:induction false} AdvanceCounts(c: Calendar, i: int, count: nat)
    requires ValidCalendar(c)
    ensures AdvanceSessions(c, c.session(i), count) == c.session(i + count)
  {
    if count > 0 {
      AdvanceCounts(c, i, count - 1);
      LocateSession(c, i + count - 1);
    }
  }

  /** Walks session by session; from a session it ends `count` sessions later. */
  method Advance(c: Calendar, start: Date, count: nat) returns (session: Date)
    ensures session == AdvanceSessions(c, start, count)
    ensures ValidCalendar(c) && IsSession(c, start) ==> session == c.session(c.locate(start) + count)
  {
    if ValidCalendar(c) && IsSession(c, start) { AdvanceCounts(c, c.locate(start), count); }
    session := start;
    for k := 0 to count
      invariant session == AdvanceSessions(c, start, k)
    {
      session := NextSession(c, session);
    }
  }

  /** The number of the first session on or after `d`. */
  function FirstOnOrAfter(c: Calendar, d: Date): int {
    if IsSession(c, d) then c.locate(d) else c.locate(d) + 1
  }

  /** `sessions_in_range`: every session from `first` to `target`, both included. */
  function SessionsInRange(c: Calendar, first: Date, target: Date): seq<Date> {
    var lo, hi := FirstOnOrAfter(c, first), c.locate(target);
    if hi < lo then [] else seq(hi - lo + 1, k requires 0 <= k => c.session(lo + k))
  }

  lemma RangeBounds(c: Calendar, first: Date, target: Date, i: int)
    requires ValidCalendar(c)
    ensures FirstOnOrAfter(c, first) <= i <= c.locate(target) <==> first <= c.session(i) <= target
  {
    LocateOrder(c, first, i);
    LocateOrder(c, target, i);
    Order(c, i, c.locate(first));
    SessionsAreSessions(c, i);
  }

  lemma RangeHolds(c: Calendar, first: Date, target: Date, d: Date)
    requires ValidCalendar(c) && IsSession(c, d) && first <= d <= target
    ensures d in SessionsInRange(c, first, target)
  {
    var k := c.locate(d) - FirstOnOrAfter(c, first);
    RangeBounds(c, first, target, c.locate(d));
    assert SessionsInRange(c, first, target)[k] == d;
  }

  lemma RangeFrom(c: Calendar, i: int, n: nat)
    requires ValidCalendar(c)
    ensures SessionsInRange(c, c.session(i), c.session(i + n)) == seq(n + 1, k => c.session(i + k))
  {
    LocateSession(c, i);
    LocateSession(c, i + n);
  }
}
