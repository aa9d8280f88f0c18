/** The immutable sample table: one row per candidate, created once and only ever re-verified. */
module SampleTable {
  import opened Prelude
  import opened TradingCalendar
  import opened ForwardOutcome
  import opened ResearchSamples
  import opened Representatives

  /** A stored sample; its row id is its position in the table. */
  datatype Sample = Sample(values: Foundation, createdAt: Instant)

  datatype StepError = MissingScanRun(runCandidate: int) | ImmutableSampleConflict(sampleCandidate: int)

  /** The foundation rebuilt from the current evidence, None when the candidate's run is missing. */
  type Rebuilt = ProductCandidate -> Option<Foundation>

  ghost predicate DistinctCandidateIds(candidates: seq<ProductCandidate>) {
    forall i, j :: 0 <= i < j < |candidates| ==> candidates[i].id != candidates[j].id
  }

  /** The query for a candidate's sample. */
  function SampleRow(samples: seq<Sample>, candidateId: int): (r: Option<nat>)
    ensures r.Some? ==> r.value < |samples| && samples[r.value].values.candidateId == candidateId
    ensures r.None? ==> forall i :: 0 <= i < |samples| ==> samples[i].values.candidateId != candidateId
  {
    if samples == [] then None
    else if samples[|samples| - 1].values.candidateId == candidateId then Some(|samples| - 1)
    else SampleRow(samples[..|samples| - 1], candidateId)
  }

  /** `_get_or_create_sample`, preceded by the run lookup. */
  function EnsureSample(rebuilt: Rebuilt, samples: seq<Sample>, candidate: ProductCandidate, t: Instant)
    : Result<(seq<Sample>, Pair), StepError>
  {
    if rebuilt(candidate).None? then Err(MissingScanRun(candidate.id))
    else
      var f, row := rebuilt(candidate).value, SampleRow(samples, candidate.id);
      if row.None? then Ok((samples + [Sample(f, t)], (|samples|, f)))
      else if samples[row.value].values != f then Err(ImmutableSampleConflict(candidate.id))
      else Ok((samples, (row.value, f)))
  }

  function EnsureAll(rebuilt: Rebuilt, samples: seq<Sample>, candidates: seq<ProductCandidate>, t: Instant)
    : Result<(seq<Sample>, seq<Pair>), StepError>
  {
    if candidates == [] then Ok((samples, []))
    else
      match EnsureAll(rebuilt, samples, candidates[..|candidates| - 1], t)
      case Err(e) => Err(e)
      case Ok(done) =>
        match EnsureSample(rebuilt, done.0, candidates[|candidates| - 1], t)
        case Err(e) => Err(e)
        case Ok(one) => Ok((one.0, done.1 + [one.1]))
  }

  /** Samples are unique per candidate. */
  ghost predicate UniqueSamples(samples: seq<Sample>) {
    forall i, j :: 0 <= i < j < |samples| ==> samples[i].values.candidateId != samples[j].values.candidateId
  }

  ghost predicate RebuiltForCandidate(rebuilt: Rebuilt) {
    forall c: ProductCandidate :: rebuilt(c).Some? ==> rebuilt(c).value.candidateId == c.id
  }

  /** Pair `i` is candidate `i`'s rebuilt foundation together with the row that stores it. */
  ghost predicate PairMatches(rebuilt: Rebuilt, samples: seq<Sample>, candidate: ProductCandidate, pair: Pair) {
    && rebuilt(candidate) == Some(pair.1)
    && pair.0 < |samples| && samples[pair.0].values == pair.1
  }

  ghost predicate PairsMatch(rebuilt: Rebuilt, samples: seq<Sample>, candidates: seq<ProductCandidate>, pairs: seq<Pair>) {
    && |pairs| == |candidates|
    && forall i :: 0 <= i < |pairs| ==> PairMatches(rebuilt, samples, candidates[i], pairs[i])
  }

  lemma {:induction false} EnsureAllFacts(
      rebuilt: Rebuilt, samples: seq<Sample>, candidates: seq<ProductCandidate>, t: Instant)
    requires UniqueSamples(samples) && RebuiltForCandidate(rebuilt)
    requires EnsureAll(rebuilt, samples, candidates, t).Ok?
    ensures var r := EnsureAll(rebuilt, samples, candidates, t).value;
      samples <= r.0 && UniqueSamples(r.0) && PairsMatch(rebuilt, r.0, candidates, r.1)
  {
    if candidates != [] {
      var front, last := candidates[..|candidates| - 1], candidates[|candidates| - 1];
      EnsureAllFacts(rebuilt, samples, front, t);
      var before, after := EnsureAll(rebuilt, samples, front, t).value, EnsureAll(rebuilt, samples, candidates, t).value;
      assert before.0 <= after.0;
      forall i | 0 <= i < |after.1|
        ensures PairMatches(rebuilt, after.0, candidates[i], after.1[i])
      {
        if i < |before.1| { assert PairMatches(rebuilt, before.0, front[i], before.1[i]); }
      }
    }
  }

  /** Every row added by the pass holds some candidate's rebuilt foundation, stamped with `t`. */
  ghost predicate AddedFor(rebuilt: Rebuilt, candidates: seq<ProductCandidate>, t: Instant, s: Sample) {
    s.createdAt == t && exists j :: 0 <= j < |candidates| && rebuilt(candidates[j]) == Some(s.values)
  }

  lemma {:induction false} EnsureAllAdds(
      rebuilt: Rebuilt, samples: seq<Sample>, candidates: seq<ProductCandidate>, t: Instant)
    requires EnsureAll(rebuilt, samples, candidates, t).Ok?
    ensures var samples' := EnsureAll(rebuilt, samples, candidates, t).value.0;
      && samples <= samples'
      && forall i :: |samples| <= i < |samples'| ==> AddedFor(rebuilt, candidates, t, samples'[i])
  {
    if candidates != [] {
      var front, last := candidates[..|candidates| - 1], |candidates| - 1;
      EnsureAllAdds(rebuilt, samples, front, t);
      var before, after := EnsureAll(rebuilt, samples, front, t).value.0, EnsureAll(rebuilt, samples, candidates, t).value.0;
      forall i | |samples| <= i < |after|
        ensures AddedFor(rebuilt, candidates, t, after[i])
      {
        if i < |before| {
          assert AddedFor(rebuilt, front, t, before[i]);
          var j :| 0 <= j < |front| && rebuilt(front[j]) == Some(before[i].values);
          assert candidates[j] == front[j];
        } else {
          assert rebuilt(candidates[last]) == Some(after[i].values);
        }
      }
    }
  }

  /** A stored sample of `candidate` disagrees with the rebuilt foundation, or there is no run. */
  predicate Blocked(rebuilt: Rebuilt, samples: seq<Sample>, candidate: ProductCandidate) {
    var row := SampleRow(samples, candidate.id);
    rebuilt(candidate).None? || (row.Some? && samples[row.value].values != rebuilt(candidate).value)
  }

  lemma {:induction false} SampleRowIgnoresOthers(samples: seq<Sample>, more: seq<Sample>, candidateId: int)
    requires forall i :: 0 <= i < |more| ==> more[i].values.candidateId != candidateId
    ensures SampleRow(samples + more, candidateId) == SampleRow(samples, candidateId)
  {
    if more == [] {
      assert samples + more == samples;
    } else {
      SampleRowIgnoresOthers(samples, more[..|more| - 1], candidateId);
      assert (samples + more)[..|samples + more| - 1] == samples + more[..|more| - 1];
    }
  }

  /** A pass over other candidates does not change whether this one is blocked. */
  lemma BlockedAfterOthers(
      rebuilt: Rebuilt, samples: seq<Sample>, others: seq<ProductCandidate>, t: Instant, candidate: ProductCandidate)
    requires RebuiltForCandidate(rebuilt) && EnsureAll(rebuilt, samples, others, t).Ok?
    requires forall i :: 0 <= i < |others| ==> others[i].id != candidate.id
    ensures Blocked(rebuilt, EnsureAll(rebuilt, samples, others, t).value.0, candidate)
       <==> Blocked(rebuilt, samples, candidate)
  {
    EnsureAllAdds(rebuilt, samples, others, t);
    var done := EnsureAll(rebuilt, samples, others, t).value.0;
    var more := done[|samples|..];
    assert done == samples + more;
    forall i | 0 <= i < |more|
      ensures more[i].values.candidateId != candidate.id
    {
      assert AddedFor(rebuilt, others, t, done[|samples| + i]);
    }
    SampleRowIgnoresOthers(samples, more, candidate.id);
  }

  predicate AnyBlocked(rebuilt: Rebuilt, samples: seq<Sample>, candidates: seq<ProductCandidate>) {
    exists i :: 0 <= i < |candidates| && Blocked(rebuilt, samples, candidates[i])
  }

  lemma AnyBlockedStep(rebuilt: Rebuilt, samples: seq<Sample>, front: seq<ProductCandidate>, last: ProductCandidate)
    ensures AnyBlocked(rebuilt, samples, front + [last])
       <==> AnyBlocked(rebuilt, samples, front) || Blocked(rebuilt, samples, last)
  {
    var all := front + [last];
    assert all[|front|] == last;
    if AnyBlocked(rebuilt, samples, front) {
      var i :| 0 <= i < |front| && Blocked(rebuilt, samples, front[i]);
      assert all[i] == front[i];
    }
  }

  lemma EnsureSampleFailsIff(rebuilt: Rebuilt, samples: seq<Sample>, candidate: ProductCandidate, t: Instant)
    ensures EnsureSample(rebuilt, samples, candidate, t).Err? <==> Blocked(rebuilt, samples, candidate)
  {
  }

  /** The sample phase fails exactly when some candidate has no run or a conflicting sample. */
  lemma {:induction false} EnsureAllFailsIff(
      rebuilt: Rebuilt, samples: seq<Sample>, candidates: seq<ProductCandidate>, t: Instant)
    requires DistinctCandidateIds(candidates) && RebuiltForCandidate(rebuilt)
    ensures EnsureAll(rebuilt, samples, candidates, t).Err? <==> AnyBlocked(rebuilt, samples, candidates)
  {
    if candidates != [] {
      var front, last := candidates[..|candidates| - 1], candidates[|candidates| - 1];
      EnsureAllFailsIff(rebuilt, samples, front, t);
      assert candidates == front + [last];
      AnyBlockedStep(rebuilt, samples, front, last);
      var before := EnsureAll(rebuilt, samples, front, t);
      if before.Ok? {
        BlockedAfterOthers(rebuilt, samples, front, t, last);
        EnsureSampleFailsIff(rebuilt, before.value.0, last, t);
      }
    }
  }
}
