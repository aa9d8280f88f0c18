/** Shared data types and the stable sort behind every `sorted(...)` of the modelled code. */
module Prelude {

  datatype Option<+T> = None | Some(value: T)

  datatype Result<+T, +E> = Ok(value: T) | Err(error: E)

  /** `leq` compares any two values and is transitive; ties are allowed. */
  ghost predicate TotalPreorder<T(!new)>(leq: (T, T) -> bool) {
    && (forall a, b :: leq(a, b) || leq(b, a))
    && (forall a, b, c :: leq(a, b) && leq(b, c) ==> leq(a, c))
  }

  ghost predicate SortedBy<T>(leq: (T, T) -> bool, s: seq<T>) {
    forall i, j :: 0 <= i < j < |s| ==> leq(s[i], s[j])
  }

  /** Puts `x` after every element that is not greater: equal elements keep their input order. */
  function Insert<T>(leq: (T, T) -> bool, s: seq<T>, x: T): (r: seq<T>)
    ensures |r| == |s| + 1
  {
    if s == [] || leq(s[|s| - 1], x) then s + [x]
    else Insert(leq, s[..|s| - 1], x) + [s[|s| - 1]]
  }

  function StableSort<T>(leq: (T, T) -> bool, s: seq<T>): (r: seq<T>)
    ensures |r| == |s|
  {
    if s == [] then [] else Insert(leq, StableSort(leq, s[..|s| - 1]), s[|s| - 1])
  }

  lemma {:induction false} InsertOccurrences<T(!new)>(leq: (T, T) -> bool, s: seq<T>, x: T)
    ensures multiset(Insert(leq, s, x)) == multiset(s) + multiset{x}
  {
    if s != [] && !leq(s[|s| - 1], x) {
      InsertOccurrences(leq, s[..|s| - 1], x);
      assert s == s[..|s| - 1] + [s[|s| - 1]];
    }
  }

  lemma {:induction false} InsertKeeps<T(!new)>(leq: (T, T) -> bool, s: seq<T>, x: T)
    requires TotalPreorder(leq) && SortedBy(leq, s)
    ensures SortedBy(leq, Insert(leq, s, x))
  {
    if s != [] {
      var front, last := s[..|s| - 1], s[|s| - 1];
      if leq(last, x) {
        assert forall i :: 0 <= i < |s| ==> leq(s[i], last);
      } else {
        InsertKeeps(leq, front, x);
        InsertMembers(leq, front, x);
        var r := Insert(leq, front, x);
        forall i | 0 <= i < |r|
          ensures leq(r[i], last)
        {
          assert r[i] in r;
          if r[i] in front {
            var k :| 0 <= k < |front| && front[k] == r[i];
            assert leq(s[k], s[|s| - 1]);
          }
        }
      }
    }
  }

  lemma {:induction false} SortKeeps<T(!new)>(leq: (T, T) -> bool, s: seq<T>)
    requires TotalPreorder(leq)
    ensures SortedBy(leq, StableSort(leq, s))
    ensures multiset(StableSort(leq, s)) == multiset(s)
  {
    if s != [] {
      var front, last := s[..|s| - 1], s[|s| - 1];
      SortKeeps(leq, front);
      InsertKeeps(leq, StableSort(leq, front), last);
      InsertOccurrences(leq, StableSort(leq, front), last);
      assert s == front + [last];
    }
  }

  lemma {:induction false} SortOfSorted<T(!new)>(leq: (T, T) -> bool, s: seq<T>)
    requires SortedBy(leq, s)
    ensures StableSort(leq, s) == s
  {
    if s != [] {
      SortOfSorted(leq, s[..|s| - 1]);
      assert s == s[..|s| - 1] + [s[|s| - 1]];
    }
  }

  ghost predicate Distinct<T>(s: seq<T>) {
    forall i, j :: 0 <= i < j < |s| ==> s[i] != s[j]
  }

  lemma {:induction false} InsertMembers<T(!new)>(leq: (T, T) -> bool, s: seq<T>, x: T)
    ensures forall y :: y in Insert(leq, s, x) <==> y in s || y == x
    ensures Distinct(s) && x !in s ==> Distinct(Insert(leq, s, x))
  {
    if s != [] && !leq(s[|s| - 1], x) {
      InsertMembers(leq, s[..|s| - 1], x);
      assert s == s[..|s| - 1] + [s[|s| - 1]];
      assert Distinct(s) ==> s[|s| - 1] !in s[..|s| - 1];
    }
  }

  lemma {:induction false} SortDistinct<T(!new)>(leq: (T, T) -> bool, s: seq<T>)
    ensures forall y :: y in StableSort(leq, s) <==> y in s
    ensures Distinct(s) ==> Distinct(StableSort(leq, s))
  {
    if s != [] {
      var front, last := s[..|s| - 1], s[|s| - 1];
      SortDistinct(leq, front);
      InsertMembers(leq, StableSort(leq, front), last);
      assert s == front + [last];
      assert Distinct(s) ==> last !in front;
    }
  }

  ghost predicate StrictlySortedBy<T>(leq: (T, T) -> bool, s: seq<T>) {
    forall i, j :: 0 <= i < j < |s| ==> leq(s[i], s[j]) && !leq(s[j], s[i])
  }

  lemma DropLast<T(!new)>(leq: (T, T) -> bool, s: seq<T>, z: T)
    requires StrictlySortedBy(leq, s) && s != []
    ensures z in s[..|s| - 1] <==> z in s && z != s[|s| - 1]
  {
    if z in s[..|s| - 1] {
      var i :| 0 <= i < |s| - 1 && s[..|s| - 1][i] == z;
      assert s[i] == z;
    }
    if z in s && z != s[|s| - 1] {
      var i :| 0 <= i < |s| && s[i] == z;
      assert s[..|s| - 1][i] == z;
    }
  }

  lemma SameLast<T(!new)>(leq: (T, T) -> bool, a: seq<T>, b: seq<T>)
    requires StrictlySortedBy(leq, a) && StrictlySortedBy(leq, b)
    requires a != [] && b != [] && a[|a| - 1] in b && b[|b| - 1] in a
    ensures a[|a| - 1] == b[|b| - 1]
  {
    var i :| 0 <= i < |b| && b[i] == a[|a| - 1];
    var j :| 0 <= j < |a| && a[j] == b[|b| - 1];
  }

  /** Two tie-free sorted sequences with the same elements are the same sequence. */
  lemma {:induction false} SortedIsUnique<T(!new)>(leq: (T, T) -> bool, a: seq<T>, b: seq<T>)
    requires StrictlySortedBy(leq, a) && StrictlySortedBy(leq, b)
    requires forall x :: x in a <==> x in b
    ensures a == b
  {
    assert b != [] ==> b[0] in a;
    if a != [] {
      assert a[0] in b;
      assert a[|a| - 1] in b && b[|b| - 1] in a;
      SameLast(leq, a, b);
      var front, front' := a[..|a| - 1], b[..|b| - 1];
      forall x
        ensures x in front <==> x in front'
      {
        DropLast(leq, a, x);
        DropLast(leq, b, x);
      }
      SortedIsUnique(leq, front, front');
      assert a == front + [a[|a| - 1]] && b == front' + [b[|b| - 1]];
    }
  }

  /** The elements of `s` that satisfy `keep`, in order. */
  function Filter<T>(s: seq<T>, keep: T -> bool): (r: seq<T>)
    ensures |r| <= |s|
  {
    if s == [] then []
    else if keep(s[|s| - 1]) then Filter(s[..|s| - 1], keep) + [s[|s| - 1]]
    else Filter(s[..|s| - 1], keep)
  }

  lemma {:induction false} FilterMembers<T(!new)>(s: seq<T>, keep: T -> bool)
    ensures forall x :: x in Filter(s, keep) <==> x in s && keep(x)
  {
    if s != [] {
      FilterMembers(s[..|s| - 1], keep);
      assert s == s[..|s| - 1] + [s[|s| - 1]];
    }
  }

  lemma {:induction false} FilterConcat<T>(a: seq<T>, b: seq<T>, keep: T -> bool)
    ensures Filter(a + b, keep) == Filter(a, keep) + Filter(b, keep)
  {
    if b == [] {
      assert a + b == a;
    } else {
      FilterConcat(a, b[..|b| - 1], keep);
      assert (a + b)[..|a + b| - 1] == a + b[..|b| - 1];
      assert (a + b)[|a + b| - 1] == b[|b| - 1];
    }
  }

  /** Filtering first by something weaker changes nothing. */
  lemma {:induction false} FilterRefines<T(!new)>(s: seq<T>, weaker: T -> bool, keep: T -> bool)
    requires forall x :: keep(x) ==> weaker(x)
    ensures Filter(Filter(s, weaker), keep) == Filter(s, keep)
  {
    if s != [] {
      var front, last := s[..|s| - 1], s[|s| - 1];
      FilterRefines(front, weaker, keep);
      if weaker(last) { assert Filter(s, weaker)[..|Filter(front, weaker)|] == Filter(front, weaker); }
    }
  }

  lemma {:induction false} FilterEmpty<T(!new)>(s: seq<T>, keep: T -> bool)
    requires forall x :: x in s ==> !keep(x)
    ensures Filter(s, keep) == []
  {
    if s != [] { FilterEmpty(s[..|s| - 1], keep); }
  }

  lemma {:induction false} FilterDistinct<T(!new)>(s: seq<T>, keep: T -> bool)
    requires Distinct(s)
    ensures Distinct(Filter(s, keep))
  {
    if s != [] {
      FilterDistinct(s[..|s| - 1], keep);
      FilterMembers(s[..|s| - 1], keep);
    }
  }

  lemma {:induction false} FilterSorted<T(!new)>(leq: (T, T) -> bool, s: seq<T>, keep: T -> bool)
    requires SortedBy(leq, s)
    ensures SortedBy(leq, Filter(s, keep))
  {
    if s != [] {
      var front, last := s[..|s| - 1], s[|s| - 1];
      FilterSorted(leq, front, keep);
      FilterMembers(front, keep);
      var kept := Filter(front, keep);
      forall k | 0 <= k < |kept|
        ensures leq(kept[k], last)
      {
        assert kept[k] in kept;
        var i :| 0 <= i < |front| && front[i] == kept[k];
        assert leq(s[i], s[|s| - 1]);
      }
    }
  }
}
