/** Stable sorting, as the platform's stable sort defines it: the unique rearrangement that is
    ordered and keeps ties in their original order. */
module Sorting {

  /** A strict weak order: irreflexive, transitive, with incomparability transitive as well. */
  ghost predicate StrictWeak<T(!new)>(less: (T, T) -> bool) {
    && (forall a: T :: !less(a, a))
    && (forall a: T, b: T, c: T :: less(a, b) && less(b, c) ==> less(a, c))
    && (forall a: T, b: T, c: T :: !less(a, b) && !less(b, c) ==> !less(a, c))
  }

  function Insert<T>(s: seq<T>, x: T, less: (T, T) -> bool): (r: seq<T>)
    ensures |r| == |s| + 1
  {
    if s == [] then [x]
    else if less(x, s[|s| - 1]) then Insert(s[..|s| - 1], x, less) + [s[|s| - 1]]
    else s + [x]
  }

  function StableSort<T>(s: seq<T>, less: (T, T) -> bool): (r: seq<T>)
    ensures |r| == |s|
  {
    if s == [] then [] else Insert(StableSort(s[..|s| - 1], less), s[|s| - 1], less)
  }

  predicate Ordered<T>(s: seq<T>, less: (T, T) -> bool) {
    forall i, j :: 0 <= i < j < |s| ==> !less(s[j], s[i])
  }

  lemma {:induction false} InsertContents<T>(s: seq<T>, x: T, less: (T, T) -> bool)
    ensures multiset(Insert(s, x, less)) == multiset(s) + multiset{x}
  {
    if s != [] && less(x, s[|s| - 1]) {
      InsertContents(s[..|s| - 1], x, less);
      assert s == s[..|s| - 1] + [s[|s| - 1]];
    }
  }

  lemma OrderedSnoc<T>(s: seq<T>, last: T, less: (T, T) -> bool)
    requires Ordered(s, less) && forall i :: 0 <= i < |s| ==> !less(last, s[i])
    ensures Ordered(s + [last], less)
  {
  }

  lemma {:induction false} InsertOrdered<T(!new)>(s: seq<T>, x: T, less: (T, T) -> bool)
    requires StrictWeak(less) && Ordered(s, less)
    ensures Ordered(Insert(s, x, less), less)
  {
    if s != [] {
      var init, last := s[..|s| - 1], s[|s| - 1];
      if less(x, last) {
        InsertOrdered(init, x, less);
        InsertContents(init, x, less);
        var r := Insert(init, x, less);
        forall i | 0 <= i < |r| ensures !less(last, r[i]) {
          assert r[i] in multiset(r);
          assert r[i] == x || r[i] in init;
        }
        OrderedSnoc(r, last, less);
      } else {
        forall i | 0 <= i < |s| ensures !less(x, s[i]) {
          LastIsNotBelow(s, less, s[i]);
          NotBelowThrough(less, x, last, s[i]);
        }
        OrderedSnoc(s, x, less);
      }
    }
  }

  lemma {:induction false} SortIsOrderedPermutation<T(!new)>(s: seq<T>, less: (T, T) -> bool)
    requires StrictWeak(less)
    ensures multiset(StableSort(s, less)) == multiset(s)
    ensures Ordered(StableSort(s, less), less)
  {
    if s != [] {
      var init := s[..|s| - 1];
      SortIsOrderedPermutation(init, less);
      InsertContents(StableSort(init, less), s[|s| - 1], less);
      InsertOrdered(StableSort(init, less), s[|s| - 1], less);
      assert s == init + [s[|s| - 1]];
    }
  }

  predicate Distinct<T(==)>(s: seq<T>) {
    forall i, j :: 0 <= i < j < |s| ==> s[i] != s[j]
  }

  lemma {:induction false} DistinctByMultiset<T(!new)>(s: seq<T>)
    requires Distinct(s)
    ensures forall x :: multiset(s)[x] <= 1
  {
    if s != [] {
      var init, last := s[..|s| - 1], s[|s| - 1];
      DistinctByMultiset(init);
      assert s == init + [last];
      assert last !in init;
      assert last !in multiset(init);
    }
  }

  lemma TwoOccurrences<T>(s: seq<T>, i: nat, j: nat)
    requires i < j < |s| && s[i] == s[j]
    ensures multiset(s)[s[i]] >= 2
  {
    assert s == s[..j] + [s[j]] + s[j + 1..];
    assert s[i] in s[..j];
    assert s[i] in multiset(s[..j]);
  }

  /** Rearranging a list without duplicates makes none. */
  lemma RearrangedIsDistinct<T(!new)>(s: seq<T>, r: seq<T>)
    requires Distinct(s) && multiset(s) == multiset(r)
    ensures Distinct(r)
  {
    DistinctByMultiset(s);
    forall i, j | 0 <= i < j < |r| ensures r[i] != r[j] {
      if r[i] == r[j] { TwoOccurrences(r, i, j); }
    }
  }

  // ----- Filtering -----

  function Filter<T>(s: seq<T>, keep: T -> bool): seq<T> {
    if s == [] then []
    else Filter(s[..|s| - 1], keep) + (if keep(s[|s| - 1]) then [s[|s| - 1]] else [])
  }

  lemma {:induction false} FilterMembers<T(!new)>(s: seq<T>, keep: T -> bool)
    ensures forall x :: x in Filter(s, keep) <==> x in s && keep(x)
  {
    if s != [] {
      FilterMembers(s[..|s| - 1], keep);
      assert s == s[..|s| - 1] + [s[|s| - 1]];
    }
  }

  lemma {:induction false} FilterConcat<T>(a: seq<T>, b: seq<T>, keep: T -> bool)
    ensures Filter(a + b, keep) == Filter(a, keep) + Filter(b, keep)
  {
    if b == [] {
      assert a + b == a;
    } else {
      FilterConcat(a, b[..|b| - 1], keep);
      assert (a + b)[..|a + b| - 1] == a + b[..|b| - 1];
    }
  }

  lemma {:induction false} FilterTwice<T>(s: seq<T>, p: T -> bool, q: T -> bool, both: T -> bool)
    requires forall x :: x in s ==> (both(x) <==> p(x) && q(x))
    ensures Filter(Filter(s, p), q) == Filter(s, both)
  {
    if s != [] {
      var init, last := s[..|s| - 1], s[|s| - 1];
      FilterTwice(init, p, q, both);
      FilterConcat(Filter(init, p), if p(last) then [last] else [], q);
      assert last in s;
      assert [last][..0] == [];
    }
  }

  lemma {:induction false} FilterCongruent<T>(s: seq<T>, p: T -> bool, q: T -> bool)
    requires forall x :: x in s ==> p(x) == q(x)
    ensures Filter(s, p) == Filter(s, q)
  {
    if s != [] {
      FilterCongruent(s[..|s| - 1], p, q);
      assert s[|s| - 1] in s;
    }
  }

  lemma {:induction false} FilterAll<T>(s: seq<T>, p: T -> bool)
    requires forall x :: x in s ==> p(x)
    ensures Filter(s, p) == s
  {
    if s != [] {
      FilterAll(s[..|s| - 1], p);
      assert s[|s| - 1] in s;
    }
  }

  lemma FilterSnoc<T>(s: seq<T>, x: T, keep: T -> bool)
    ensures Filter(s + [x], keep) == if keep(x) then Filter(s, keep) + [x] else Filter(s, keep)
  {
    assert (s + [x])[..|s|] == s;
  }

  lemma InsertSnoc<T>(s: seq<T>, last: T, x: T, less: (T, T) -> bool)
    ensures Insert(s + [last], x, less) ==
            if less(x, last) then Insert(s, x, less) + [last] else s + [last] + [x]
  {
    assert (s + [last])[..|s|] == s;
  }

  lemma SortSnoc<T>(s: seq<T>, x: T, less: (T, T) -> bool)
    ensures StableSort(s + [x], less) == Insert(StableSort(s, less), x, less)
  {
    assert (s + [x])[..|s|] == s;
  }

  lemma NotBelowThrough<T(!new)>(less: (T, T) -> bool, x: T, y: T, z: T)
    requires StrictWeak(less) && !less(x, y) && !less(y, z)
    ensures !less(x, z)
  {
  }

  lemma LastIsNotBelow<T(!new)>(s: seq<T>, less: (T, T) -> bool, y: T)
    requires StrictWeak(less) && Ordered(s, less) && y in s
    ensures !less(s[|s| - 1], y)
  {
    var j :| 0 <= j < |s| && s[j] == y;
  }

  /** An element that is not below the last one is not below any kept one. */
  lemma InsertAtEnd<T(!new)>(s: seq<T>, x: T, less: (T, T) -> bool, keep: T -> bool)
    requires StrictWeak(less) && Ordered(s, less) && s != [] && !less(x, s[|s| - 1])
    ensures Insert(Filter(s, keep), x, less) == Filter(s, keep) + [x]
  {
    var kept := Filter(s, keep);
    FilterMembers(s, keep);
    if kept != [] {
      var y := kept[|kept| - 1];
      assert y in kept;
      LastIsNotBelow(s, less, y);
      NotBelowThrough(less, x, s[|s| - 1], y);
    }
  }

  lemma InsertFilteredBefore<T>(s: seq<T>, last: T, x: T, less: (T, T) -> bool, keep: T -> bool)
    requires less(x, last)
    requires Filter(Insert(s, x, less), keep) ==
             if keep(x) then Insert(Filter(s, keep), x, less) else Filter(s, keep)
    ensures Filter(Insert(s, x, less) + [last], keep) ==
            if keep(x) then Insert(Filter(s + [last], keep), x, less) else Filter(s + [last], keep)
  {
    FilterSnoc(Insert(s, x, less), last, keep);
    FilterSnoc(s, last, keep);
    InsertSnoc(Filter(s, keep), last, x, less);
  }

  lemma {:induction false} InsertFiltered<T(!new)>(s: seq<T>, x: T, less: (T, T) -> bool, keep: T -> bool)
    requires StrictWeak(less) && Ordered(s, less)
    ensures Filter(Insert(s, x, less), keep) ==
            if keep(x) then Insert(Filter(s, keep), x, less) else Filter(s, keep)
  {
    if s == [] {
      FilterSnoc([], x, keep);
      assert [] + [x] == [x];
    } else {
      var init, last := s[..|s| - 1], s[|s| - 1];
      assert s == init + [last];
      InsertSnoc(init, last, x, less);
      if less(x, last) {
        InsertFiltered(init, x, less, keep);
        InsertFilteredBefore(init, last, x, less, keep);
      } else {
        FilterSnoc(s, x, keep);
        InsertAtEnd(s, x, less, keep);
      }
    }
  }

  /** Selecting from a stably sorted list is the stable sort of the selection. */
  lemma {:induction false} FilterCommutesWithSort<T(!new)>(s: seq<T>, less: (T, T) -> bool, keep: T -> bool)
    requires StrictWeak(less)
    ensures Filter(StableSort(s, less), keep) == StableSort(Filter(s, keep), less)
  {
    if s != [] {
      var init, last := s[..|s| - 1], s[|s| - 1];
      assert s == init + [last];
      FilterCommutesWithSort(init, less, keep);
      SortIsOrderedPermutation(init, less);
      SortSnoc(init, last, less);
      InsertFiltered(StableSort(init, less), last, less, keep);
      FilterSnoc(init, last, keep);
      SortSnoc(Filter(init, keep), last, less);
    }
  }
}
