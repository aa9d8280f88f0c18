/** Forward sessions, maturity, close-path metrics and the foundation of one research sample. */
module ForwardOutcome {
  import opened Prelude
  import opened TradingCalendar

  // ---------------------------------------------------------------- forward sessions

  datatype ForwardSessionPlan = ForwardSessionPlan(
    referenceSession: Date, t1Session: Date, t3Session: Date, t5Session: Date)

  function MapForwardSessions(c: Calendar, firstKnown: Instant, sameDayKnown: bool): ForwardSessionPlan {
    var today := c.day(firstKnown);
    var beforeClose := IsSession(c, today) && firstKnown < SessionClose(c, today);
    var reference := if IsSession(c, today) && !beforeClose && sameDayKnown then today else PreviousSession(c, today);
    var t1 := if beforeClose then today else NextSession(c, today);
    ForwardSessionPlan(reference, t1, AdvanceSessions(c, t1, 2), AdvanceSessions(c, t1, 4))
  }

  /** Knowledge arrived on a session day, at or after its official close. */
  predicate PostClose(c: Calendar, firstKnown: Instant) {
    IsSession(c, c.day(firstKnown)) && SessionClose(c, c.day(firstKnown)) <= firstKnown
  }

  /** The plan in session numbers: the reference session closed by first knowledge, T+1 did not,
      and one session (today's) lies between them exactly when a post-close first knowledge has
      no same-day proof. */
  lemma PlanNumbers(c: Calendar, firstKnown: Instant, known: bool) returns (r: int, t: int)
    requires ValidCalendar(c)
    ensures MapForwardSessions(c, firstKnown, known)
         == ForwardSessionPlan(c.session(r), c.session(t), c.session(t + 2), c.session(t + 4))
    ensures c.close(r) <= firstKnown < c.close(t)
    ensures t == if PostClose(c, firstKnown) && !known then r + 2 else r + 1
    ensures PostClose(c, firstKnown) ==> t == c.locate(c.day(firstKnown)) + 1
  {
    var today := c.day(firstKnown);
    var k := c.locate(today);
    if !IsSession(c, today) || PostClose(c, firstKnown) {
      t := k + 1;
      r := if PostClose(c, firstKnown) && !known then k - 1 else k;
    } else {
      t := k;
      r := k - 1;
    }
    Locating(c, today);
    Order(c, k - 1, k);
    CloseAgainstDay(c, firstKnown, k - 1);
    CloseAgainstDay(c, firstKnown, k);
    CloseAgainstDay(c, firstKnown, k + 1);
    AdvanceCounts(c, t, 2);
    AdvanceCounts(c, t, 4);
  }

  /** reference < T+1 < T+3 < T+5, all sessions, and no lookahead on either side of first knowledge. */
  lemma PlanIsOrderedAndCausal(c: Calendar, firstKnown: Instant, known: bool)
    requires ValidCalendar(c)
    ensures var p := MapForwardSessions(c, firstKnown, known);
      && p.referenceSession < p.t1Session < p.t3Session < p.t5Session
      && IsSession(c, p.referenceSession) && IsSession(c, p.t1Session)
      && IsSession(c, p.t3Session) && IsSession(c, p.t5Session)
      && SessionClose(c, p.referenceSession) <= firstKnown < SessionClose(c, p.t1Session)
      && SessionClose(c, p.t1Session) < SessionClose(c, p.t3Session) < SessionClose(c, p.t5Session)
  {
    var r, t := PlanNumbers(c, firstKnown, known);
    LocateSession(c, r);
    LocateSession(c, t);
    LocateSession(c, t + 2);
    LocateSession(c, t + 4);
    ClosesIncrease(c, t, t + 2);
    ClosesIncrease(c, t + 2, t + 4);
    Order(c, r, t);
    Order(c, t, t + 2);
    Order(c, t + 2, t + 4);
  }

  /** T+1 is the first session whose close is still ahead of first knowledge. */
  lemma T1IsFirstUnclosedSession(c: Calendar, firstKnown: Instant, known: bool, d: Date)
    requires ValidCalendar(c) && IsSession(c, d)
    ensures firstKnown < SessionClose(c, d) <==> MapForwardSessions(c, firstKnown, known).t1Session <= d
  {
    var r, t := PlanNumbers(c, firstKnown, known);
    var i := c.locate(d);
    ClosesIncrease(c, t, i);
    ClosesIncrease(c, r, i);
    Order(c, i, t);
    assert i < t && r < i ==> i == c.locate(c.day(firstKnown));
  }

  /** Later knowledge never maps to an earlier T+1. */
  lemma LaterKnowledgeLaterT1(c: Calendar, earlier: Instant, later: Instant, known: bool, known': bool)
    requires ValidCalendar(c) && earlier <= later
    ensures MapForwardSessions(c, earlier, known).t1Session <= MapForwardSessions(c, later, known').t1Session
  {
    var d := MapForwardSessions(c, later, known').t1Session;
    PlanIsOrderedAndCausal(c, later, known');
    T1IsFirstUnclosedSession(c, earlier, known, d);
  }

  /** At most one session lies strictly between reference and T+1; there is one exactly when
      first knowledge came at or after a close without a same-day proof, and it is that day. */
  lemma GapBeforeT1(c: Calendar, firstKnown: Instant, known: bool, d: Date)
    requires ValidCalendar(c)
    ensures var p := MapForwardSessions(c, firstKnown, known);
      (IsSession(c, d) && p.referenceSession < d < p.t1Session)
      <==> (PostClose(c, firstKnown) && !known && d == c.day(firstKnown))
  {
    var r, t := PlanNumbers(c, firstKnown, known);
    Order(c, r, c.locate(d));
    Order(c, c.locate(d), t);
  }

  /** The same-day proof moves the plan exactly for post-close first knowledge, and then it moves
      only the reference session. */
  lemma ProofMovesReference(c: Calendar, firstKnown: Instant)
    requires ValidCalendar(c)
    ensures var with, without := MapForwardSessions(c, firstKnown, true), MapForwardSessions(c, firstKnown, false);
      && (with == without <==> !PostClose(c, firstKnown))
      && with == without.(referenceSession := with.referenceSession)
  {
    Order(c, c.locate(c.day(firstKnown)) - 1, c.locate(c.day(firstKnown)));
  }

  function TargetSession(p: ForwardSessionPlan, horizon: int): Date
    requires horizon == 1 || horizon == 3 || horizon == 5
  {
    if horizon == 1 then p.t1Session else if horizon == 3 then p.t3Session else p.t5Session
  }

  /** The T+h path consists of exactly h sessions and shorter paths are prefixes of longer ones. */
  lemma PathHasHorizonSessions(c: Calendar, firstKnown: Instant, known: bool, h: int)
    requires ValidCalendar(c) && (h == 1 || h == 3 || h == 5)
    ensures var p := MapForwardSessions(c, firstKnown, known);
      var path := SessionsInRange(c, p.t1Session, TargetSession(p, h));
      && |path| == h && path[h - 1] == TargetSession(p, h)
      && path <= SessionsInRange(c, p.t1Session, p.t5Session)
  {
    var r, t := PlanNumbers(c, firstKnown, known);
    RangeFrom(c, t, h - 1);
    RangeFrom(c, t, 4);
  }

  // ---------------------------------------------------------------- maturity

  datatype MaturityState =
    | NotYetMature
    | MatureAvailable
    | MatureMissingData
    | InvalidSample
    | CorporateActionContaminated

  function MaturityStateAt(
      c: Calendar, target: Date, evaluatedAt: Instant, closePresent: bool, sampleValid: bool, basisProvable: bool)
    : MaturityState
  {
    if !sampleValid || !basisProvable || !IsSession(c, target) then InvalidSample
    else if evaluatedAt < SessionClose(c, target) then NotYetMature
    else if closePresent then MatureAvailable
    else MatureMissingData
  }

  // ---------------------------------------------------------------- close path

  datatype BasisStatus = ProvenConsistent | RawUnadjusted | Unconfirmed | Mismatched

  datatype PriceBasis = PriceBasis(basisId: Option<string>, status: BasisStatus)

  datatype ClosePriceEvidence = ClosePriceEvidence(session: Date, close: Option<real>, basis: PriceBasis)

  datatype OutcomeMetrics = OutcomeMetrics(closeReturn: real, maxUpside: real, maxDownside: real)

  datatype PriceError = PriceBasisNotProvable | ReferenceCloseNotPositive

  function MaxOf(xs: seq<real>): (m: real)
    requires xs != []
  {
    if |xs| == 1 then xs[0]
    else var m := MaxOf(xs[..|xs| - 1]); if xs[|xs| - 1] > m then xs[|xs| - 1] else m
  }

  function MinOf(xs: seq<real>): (m: real)
    requires xs != []
  {
    if |xs| == 1 then xs[0]
    else var m := MinOf(xs[..|xs| - 1]); if xs[|xs| - 1] < m then xs[|xs| - 1] else m
  }

  lemma {:induction false} ExtremesBound(xs: seq<real>)
    requires xs != []
    ensures MaxOf(xs) in xs && MinOf(xs) in xs
    ensures forall x :: x in xs ==> MinOf(xs) <= x <= MaxOf(xs)
  {
    if |xs| > 1 {
      ExtremesBound(xs[..|xs| - 1]);
      assert xs == xs[..|xs| - 1] + [xs[|xs| - 1]];
    }
  }

  lemma ExtremesGrow(xs: seq<real>, n: nat)
    requires 0 < n <= |xs|
    ensures MinOf(xs) <= MinOf(xs[..n]) && MaxOf(xs[..n]) <= MaxOf(xs)
  {
    ExtremesBound(xs);
    ExtremesBound(xs[..n]);
    assert MinOf(xs[..n]) in xs && MaxOf(xs[..n]) in xs;
  }

  predicate ConsistentBasis(evidence: seq<ClosePriceEvidence>)
    requires evidence != []
  {
    var basis := evidence[0].basis;
    && (basis.status == ProvenConsistent || basis.status == RawUnadjusted)
    && basis.basisId != None && basis.basisId != Some("")
    && forall i :: 0 <= i < |evidence| ==> evidence[i].basis == basis
  }

  function Closes(evidence: seq<ClosePriceEvidence>): (r: seq<real>)
    requires forall i :: 0 <= i < |evidence| ==> evidence[i].close.Some?
  {
    seq(|evidence|, i requires 0 <= i < |evidence| => evidence[i].close.value)
  }

  function CalculateClosePath(reference: ClosePriceEvidence, future: seq<ClosePriceEvidence>)
    : Result<Option<OutcomeMetrics>, PriceError>
  {
    if reference.close.None? || future == [] then Ok(None)
    else if exists i :: 0 <= i < |future| && future[i].close.None? then Ok(None)
    else if !ConsistentBasis([reference] + future) then Err(PriceBasisNotProvable)
    else if reference.close.value <= 0.0 then Err(ReferenceCloseNotPositive)
    else
      var closes := Closes(future);
      Ok(Some(OutcomeMetrics(
        closes[|closes| - 1] / reference.close.value - 1.0,
        MaxOf(closes) / reference.close.value - 1.0,
        MinOf(closes) / reference.close.value - 1.0)))
  }

  lemma DivMonotone(x: real, y: real, d: real)
    requires x <= y && 0.0 < d
    ensures x / d <= y / d
  {
  }

  /** A positive close path has -1 < downside <= return <= upside. */
  lemma MetricsAreOrdered(reference: ClosePriceEvidence, future: seq<ClosePriceEvidence>, m: OutcomeMetrics)
    requires CalculateClosePath(reference, future) == Ok(Some(m))
    requires forall i :: 0 <= i < |future| && future[i].close.Some? ==> future[i].close.value > 0.0
    ensures -1.0 < m.maxDownside <= m.closeReturn <= m.maxUpside
  {
    var closes, d := Closes(future), reference.close.value;
    ExtremesBound(closes);
    DivMonotone(MinOf(closes), closes[|closes| - 1], d);
    DivMonotone(closes[|closes| - 1], MaxOf(closes), d);
  }

  /** Along one path, upside can only grow and downside only fall with the horizon. */
  lemma MetricsWiden(reference: ClosePriceEvidence, future: seq<ClosePriceEvidence>, n: nat,
                     short: OutcomeMetrics, long: OutcomeMetrics)
    requires 0 < n <= |future|
    requires CalculateClosePath(reference, future[..n]) == Ok(Some(short))
    requires CalculateClosePath(reference, future) == Ok(Some(long))
    ensures short.maxUpside <= long.maxUpside && long.maxDownside <= short.maxDownside
  {
    assert Closes(future[..n]) == Closes(future)[..n];
    ExtremesGrow(Closes(future), n);
    DivMonotone(MaxOf(Closes(future[..n])), MaxOf(Closes(future)), reference.close.value);
    DivMonotone(MinOf(Closes(future)), MinOf(Closes(future[..n])), reference.close.value);
  }
}
