/** One primary representative per outcome window. */
module Representatives {
  import opened Prelude
  import opened ForwardOutcome
  import opened ResearchSamples

  /** A stored sample (its row id) with its foundation. */
  type Pair = (nat, Foundation)

  predicate KeyLess(a: Foundation, b: Foundation) {
    a.firstKnowledge < b.firstKnowledge || (a.firstKnowledge == b.firstKnowledge && a.candidateId < b.candidateId)
  }

  /** The first element whose key no other key undercuts. */
  function FirstMin(rows: seq<Foundation>): (m: Foundation)
    requires rows != []
  {
    if |rows| == 1 then rows[0]
    else
      var m, last := FirstMin(rows[..|rows| - 1]), rows[|rows| - 1];
      if KeyLess(last, m) then last else m
  }

  lemma {:induction false} FirstMinIsLeast(rows: seq<Foundation>)
    requires rows != []
    ensures FirstMin(rows) in rows
    ensures forall f :: f in rows ==> !KeyLess(f, FirstMin(rows))
  {
    if |rows| > 1 {
      FirstMinIsLeast(rows[..|rows| - 1]);
      assert rows == rows[..|rows| - 1] + [rows[|rows| - 1]];
    }
  }

  // ---------------------------------------------------------------- the aggregate reference

  datatype AggregationError = MoreThanOneWindow

  predicate OneWindow(rows: seq<Foundation>) {
    forall i :: 0 <= i < |rows| ==> rows[i].windowKey == rows[0].windowKey
  }

  function DeterministicPrimaryOccurrence(occurrences: seq<Foundation>): Result<Option<Foundation>, AggregationError> {
    var eligible := Filter(occurrences, (f: Foundation) => f.primaryEligible);
    if eligible == [] then Ok(None)
    else if !OneWindow(eligible) then Err(MoreThanOneWindow)
    else Ok(Some(FirstMin(eligible)))
  }

  // ---------------------------------------------------------------- the materializer's choice

  ghost predicate DistinctCandidates(samples: seq<Pair>) {
    forall i, j :: 0 <= i < j < |samples| ==> samples[i].1.candidateId != samples[j].1.candidateId
  }

  ghost predicate DistinctRows(samples: seq<Pair>) {
    forall i, j :: 0 <= i < j < |samples| ==> samples[i].0 != samples[j].0
  }

  predicate InWindow(f: Foundation, w: WindowKey) {
    f.primaryEligible && f.windowKey == w
  }

  /** Sample `i` is eligible and no eligible sample of its window has a smaller key. */
  ghost predicate Represents(samples: seq<Pair>, i: int) {
    && 0 <= i < |samples| && samples[i].1.primaryEligible
    && forall j :: 0 <= j < |samples| && InWindow(samples[j].1, samples[i].1.windowKey)
         ==> !KeyLess(samples[j].1, samples[i].1)
  }

  function LeastOfWindow(samples: seq<Pair>, w: WindowKey): Option<Pair> {
    if samples == [] then None
    else
      var best, last := LeastOfWindow(samples[..|samples| - 1], w), samples[|samples| - 1];
      if InWindow(last.1, w) && (best.None? || KeyLess(last.1, best.value.1)) then Some(last) else best
  }

  /** The ids the materializer marks as primary representatives. */
  function RepresentativeIds(samples: seq<Pair>): set<nat> {
    set i | 0 <= i < |samples| && samples[i].1.primaryEligible
            && LeastOfWindow(samples, samples[i].1.windowKey) == Some(samples[i]) :: samples[i].0
  }

  lemma {:induction false} LeastOfWindowFacts(samples: seq<Pair>, w: WindowKey)
    ensures match LeastOfWindow(samples, w)
      case None => forall p :: p in samples ==> !InWindow(p.1, w)
      case Some(m) => m in samples && InWindow(m.1, w)
                      && forall p :: p in samples && InWindow(p.1, w) ==> !KeyLess(p.1, m.1)
  {
    if samples != [] {
      LeastOfWindowFacts(samples[..|samples| - 1], w);
      assert samples == samples[..|samples| - 1] + [samples[|samples| - 1]];
    }
  }

  /** Groups the eligible pairs by window and takes each group's minimum. */
  method PrimaryRepresentativeIds(samples: seq<Pair>) returns (ids: set<nat>)
    ensures ids == RepresentativeIds(samples)
  {
    var groups: map<WindowKey, seq<Pair>> := map[];
    var keys: seq<WindowKey> := [];
    for i := 0 to |samples|
      invariant forall w :: w in groups <==> w in keys
      invariant forall w :: w in groups ==> groups[w] == Filter(samples[..i], (p: Pair) => InWindow(p.1, w))
      invariant forall w :: w in groups ==> groups[w] != []
      invariant forall p :: p in samples[..i] && p.1.primaryEligible ==> p.1.windowKey in groups
    {
      assert samples[..i + 1] == samples[..i] + [samples[i]];
      assert samples[..i + 1][..i] == samples[..i];
      var f := samples[i].1;
      if f.primaryEligible {
        var w := f.windowKey;
        if w !in groups {
          NobodyInWindow(samples[..i], w);
          keys := keys + [w];
          groups := groups[w := [samples[i]]];
        } else {
          groups := groups[w := groups[w] + [samples[i]]];
        }
      }
    }
    assert samples[..|samples|] == samples;
    ids := {};
    for i := 0 to |keys|
      invariant forall n :: n in ids <==> exists w, p :: w in keys[..i] && LeastOfWindow(samples, w) == Some(p) && n == p.0
    {
      assert keys[..i + 1] == keys[..i] + [keys[i]];
      FilterMembers(samples, (p: Pair) => InWindow(p.1, keys[i]));
      var selected := LeastOf(groups[keys[i]], keys[i]);
      LeastOfFilter(samples, keys[i]);
      ids := ids + {selected.0};
    }
    assert keys[..|keys|] == keys;
    forall n
      ensures n in ids <==> n in RepresentativeIds(samples)
    {
      if n in ids {
        var w, p :| w in keys && LeastOfWindow(samples, w) == Some(p) && n == p.0;
        LeastOfWindowFacts(samples, w);
        var i :| 0 <= i < |samples| && samples[i] == p;
      }
      if n in RepresentativeIds(samples) {
        var i :| 0 <= i < |samples| && samples[i].1.primaryEligible
          && LeastOfWindow(samples, samples[i].1.windowKey) == Some(samples[i]) && n == samples[i].0;
        assert samples[i] in samples;
      }
    }
  }

  method LeastOf(rows: seq<Pair>, ghost w: WindowKey) returns (selected: Pair)
    requires rows != [] && forall p :: p in rows ==> InWindow(p.1, w)
    ensures LeastOfWindow(rows, w) == Some(selected)
  {
    selected := rows[0];
    assert rows[..1][..0] == [] && rows[0] in rows;
    for j := 1 to |rows|
      invariant LeastOfWindow(rows[..j], w) == Some(selected)
    {
      assert rows[..j + 1][..j] == rows[..j] && rows[j] in rows;
      if KeyLess(rows[j].1, selected.1) { selected := rows[j]; }
    }
    assert rows[..|rows|] == rows;
  }

  lemma {:induction false} NobodyInWindow(samples: seq<Pair>, w: WindowKey)
    requires forall p :: p in samples && p.1.primaryEligible ==> p.1.windowKey != w
    ensures Filter(samples, (p: Pair) => InWindow(p.1, w)) == []
  {
    if samples != [] {
      assert samples[|samples| - 1] in samples;
      NobodyInWindow(samples[..|samples| - 1], w);
    }
  }

  lemma {:induction false} LeastOfFilter(samples: seq<Pair>, w: WindowKey)
    ensures LeastOfWindow(Filter(samples, (p: Pair) => InWindow(p.1, w)), w) == LeastOfWindow(samples, w)
  {
    if samples != [] {
      LeastOfFilter(samples[..|samples| - 1], w);
      var kept := Filter(samples[..|samples| - 1], (p: Pair) => InWindow(p.1, w));
      assert (kept + [samples[|samples| - 1]])[..|kept|] == kept;
    }
  }

  // ---------------------------------------------------------------- properties

  /** With distinct candidates, being the least of the window is what `Represents` says. */
  lemma LeastIsRepresentative(samples: seq<Pair>, i: nat)
    requires DistinctCandidates(samples) && i < |samples|
    ensures Represents(samples, i)
       <==> samples[i].1.primaryEligible && LeastOfWindow(samples, samples[i].1.windowKey) == Some(samples[i])
  {
    var w := samples[i].1.windowKey;
    LeastOfWindowFacts(samples, w);
    assert samples[i] in samples;
    if Represents(samples, i) {
      var m := LeastOfWindow(samples, w).value;
      var j :| 0 <= j < |samples| && samples[j] == m;
      assert !KeyLess(samples[j].1, samples[i].1);
      assert i == j;
    }
    if samples[i].1.primaryEligible && LeastOfWindow(samples, w) == Some(samples[i]) {
      forall j | 0 <= j < |samples| && InWindow(samples[j].1, w)
        ensures !KeyLess(samples[j].1, samples[i].1)
      {
        assert samples[j] in samples;
      }
    }
  }

  /** A row id is marked exactly when its sample represents its window. */
  lemma MarkedIffRepresents(samples: seq<Pair>, i: nat)
    requires DistinctCandidates(samples) && DistinctRows(samples) && i < |samples|
    ensures samples[i].0 in RepresentativeIds(samples) <==> Represents(samples, i)
  {
    LeastIsRepresentative(samples, i);
    if samples[i].0 in RepresentativeIds(samples) {
      var j :| 0 <= j < |samples| && samples[j].1.primaryEligible
        && LeastOfWindow(samples, samples[j].1.windowKey) == Some(samples[j]) && samples[i].0 == samples[j].0;
      assert i == j;
    }
  }

  /** A window has a representative exactly when it has an eligible sample, and never two. */
  lemma ExactlyOneRepresentative(samples: seq<Pair>, w: WindowKey)
    requires DistinctCandidates(samples)
    ensures (exists i :: Represents(samples, i) && samples[i].1.windowKey == w)
       <==> (exists j :: 0 <= j < |samples| && InWindow(samples[j].1, w))
    ensures forall i, j :: Represents(samples, i) && Represents(samples, j) ==>
              samples[i].1.windowKey == w && samples[j].1.windowKey == w ==> i == j
  {
    LeastOfWindowFacts(samples, w);
    if j :| 0 <= j < |samples| && InWindow(samples[j].1, w) {
      assert samples[j] in samples;
      var m := LeastOfWindow(samples, w).value;
      var i :| 0 <= i < |samples| && samples[i] == m;
      LeastIsRepresentative(samples, i);
    }
    if i :| Represents(samples, i) && samples[i].1.windowKey == w {
      assert InWindow(samples[i].1, w);
    }
    forall i, j | Represents(samples, i) && Represents(samples, j)
      && samples[i].1.windowKey == w && samples[j].1.windowKey == w
      ensures i == j
    {
      assert !KeyLess(samples[i].1, samples[j].1) && !KeyLess(samples[j].1, samples[i].1);
    }
  }

  function Occurrences(samples: seq<Pair>): seq<Foundation> {
    seq(|samples|, i requires 0 <= i < |samples| => samples[i].1)
  }

  /** The choice does not depend on the order in which samples are listed. */
  lemma RepresentativeIgnoresOrder(a: seq<Pair>, b: seq<Pair>, i: nat, j: nat)
    requires forall p :: p in a <==> p in b
    requires i < |a| && j < |b| && a[i] == b[j]
    ensures Represents(a, i) <==> Represents(b, j)
  {
    forall k | 0 <= k < |a|
      ensures exists l :: 0 <= l < |b| && b[l] == a[k]
    {
      assert a[k] in b;
    }
    forall k | 0 <= k < |b|
      ensures exists l :: 0 <= l < |a| && a[l] == b[k]
    {
      assert b[k] in a;
    }
  }

  /** On one window's occurrences, the materializer's choice is the aggregate reference's choice. */
  lemma RepresentativeMatchesReference(samples: seq<Pair>, i: nat, w: WindowKey)
    requires DistinctCandidates(samples) && i < |samples| && samples[i].1.windowKey == w
    ensures var occurrences := Filter(Occurrences(samples), (f: Foundation) => f.windowKey == w);
      Represents(samples, i) <==> DeterministicPrimaryOccurrence(occurrences) == Ok(Some(samples[i].1))
  {
    var all := Occurrences(samples);
    var occurrences := Filter(all, (f: Foundation) => f.windowKey == w);
    var eligible := Filter(occurrences, (f: Foundation) => f.primaryEligible);
    FilterMembers(all, (f: Foundation) => f.windowKey == w);
    FilterMembers(occurrences, (f: Foundation) => f.primaryEligible);
    assert forall f :: f in eligible <==> f in all && InWindow(f, w);
    assert all[i] in all;
    if eligible != [] {
      FirstMinIsLeast(eligible);
      forall k | 0 <= k < |eligible|
        ensures eligible[k].windowKey == eligible[0].windowKey
      {
        assert eligible[k] in eligible && eligible[0] in eligible;
      }
      var m := FirstMin(eligible);
      var j :| 0 <= j < |all| && all[j] == m;
      if Represents(samples, i) {
        assert !KeyLess(samples[j].1, samples[i].1) && !KeyLess(samples[i].1, samples[j].1);
        assert i == j;
      }
      if m == samples[i].1 {
        assert samples[i].1.primaryEligible;
        forall k | 0 <= k < |samples| && InWindow(samples[k].1, w)
          ensures !KeyLess(samples[k].1, samples[i].1)
        {
          assert all[k] in all;
        }
      }
    }
  }
}
