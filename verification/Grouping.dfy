/** Group-by with maps: walking the groups in any order, sorting them, and adding them up again. */
module Grouping {
  import opened Sorting
  import opened Summation

  // ----- Walking a map -----

  ghost predicate Enumerates<V>(m: map<string, V>, ks: seq<string>) {
    Distinct(ks) && forall k :: k in ks <==> k in m
  }

  function Values<V>(m: map<string, V>, ks: seq<string>): seq<V>
    requires Enumerates(m, ks)
  {
    seq(|ks|, i requires 0 <= i < |ks| => assert ks[i] in ks; m[ks[i]])
  }

  /** Visits the keys in an arbitrary order. */
  method Walk<V>(m: map<string, V>) returns (ks: seq<string>)
    ensures Enumerates(m, ks)
  {
    ks := [];
    var todo := m.Keys;
    while todo != {}
      invariant todo <= m.Keys && Distinct(ks)
      invariant forall k :: k in ks <==> k in m && k !in todo
      decreases todo
    {
      var k :| k in todo;
      ks := ks + [k];
      todo := todo - {k};
    }
  }

  ghost predicate HasValue<V>(m: map<string, V>, v: V) {
    exists k :: k in m && m[k] == v
  }

  lemma ValuesAreOfMap<V>(m: map<string, V>, ks: seq<string>, v: V)
    requires Enumerates(m, ks)
    ensures v in Values(m, ks) <==> HasValue(m, v)
  {
    if v in Values(m, ks) {
      var i :| 0 <= i < |ks| && Values(m, ks)[i] == v;
      assert ks[i] in ks;
    }
    if k :| k in m && m[k] == v {
      var i :| 0 <= i < |ks| && ks[i] == k;
      assert Values(m, ks)[i] == v;
    }
  }

  /** Walking and sorting a map lists exactly its values. */
  lemma SortedValues<V(!new)>(m: map<string, V>, ks: seq<string>, less: (V, V) -> bool, v: V)
    requires Enumerates(m, ks) && StrictWeak(less)
    ensures v in StableSort(Values(m, ks), less) <==> HasValue(m, v)
  {
    SortIsOrderedPermutation(Values(m, ks), less);
    assert v in StableSort(Values(m, ks), less) <==> v in multiset(StableSort(Values(m, ks), less));
    assert v in Values(m, ks) <==> v in multiset(Values(m, ks));
    ValuesAreOfMap(m, ks, v);
  }

  // ----- Sums over selected groups -----

  function Every<T>(): T -> bool {
    (x: T) => true
  }

  function Gated<T, M>(p: T -> bool, of: T -> M, g: Monoid<M>): T -> M {
    (x: T) => if p(x) then of(x) else g.zero
  }

  lemma {:induction false} SumWhereIsGatedSum<T, M(!new)>(s: seq<T>, p: T -> bool, of: T -> M, g: Monoid<M>)
    requires Lawful(g)
    ensures SumWhere(s, p, of, g) == SumBy(s, Gated(p, of, g), g)
  {
    if s != [] {
      var init, last := s[..|s| - 1], s[|s| - 1];
      assert s == init + [last];
      SumWhereIsGatedSum(init, p, of, g);
      SumWhereSnoc(init, last, p, of, g);
      SumSnoc(init, last, Gated(p, of, g), g);
      Unit(g, SumBy(init, Gated(p, of, g), g));
    }
  }

  /** Sorting does not change the sum of a selection. */
  lemma SumOfSorted<T(!new), M(!new)>(s: seq<T>, less: (T, T) -> bool, p: T -> bool, of: T -> M, g: Monoid<M>)
    requires Lawful(g) && StrictWeak(less)
    ensures SumWhere(StableSort(s, less), p, of, g) == SumWhere(s, p, of, g)
  {
    SumWhereIsGatedSum(s, p, of, g);
    SumWhereIsGatedSum(StableSort(s, less), p, of, g);
    SortIsOrderedPermutation(s, less);
    SumOfPermutation(StableSort(s, less), s, Gated(p, of, g), g);
  }

  /** Group `v` under key `k` contributes to a selection of groups exactly its selected rows. */
  ghost predicate GroupHolds<R, V, M>(rows: seq<R>, keyOf: R -> string, p: R -> bool, of: R -> M,
                                      want: V -> bool, held: V -> M, g: Monoid<M>, k: string, v: V)
  {
    Gated(want, held, g)(v) == GroupSum(rows, keyOf, p, of, g)(k)
  }

  /** If every group contributes its selected rows, the selected groups sum to the selected rows. */
  lemma GroupsSumToRows<R, V, M(!new)>(rows: seq<R>, keyOf: R -> string, m: map<string, V>, ks: seq<string>,
                                       p: R -> bool, of: R -> M, want: V -> bool, held: V -> M, g: Monoid<M>)
    requires Lawful(g) && Enumerates(m, ks)
    requires forall r :: r in rows ==> keyOf(r) in m
    requires forall k :: k in m ==> GroupHolds(rows, keyOf, p, of, want, held, g, k, m[k])
    ensures SumWhere(Values(m, ks), want, held, g) == SumWhere(rows, p, of, g)
  {
    SumWhereIsGatedSum(Values(m, ks), want, held, g);
    forall i | 0 <= i < |ks|
      ensures Gated(want, held, g)(Values(m, ks)[i]) == GroupSum(rows, keyOf, p, of, g)(ks[i])
    {
      assert ks[i] in ks;
      assert GroupHolds(rows, keyOf, p, of, want, held, g, ks[i], m[ks[i]]);
    }
    SumOfMapped(Values(m, ks), ks, Gated(want, held, g), GroupSum(rows, keyOf, p, of, g), g);
    GroupsAddUp(rows, keyOf, ks, p, of, g);
    SumWhereCongruent(rows, KeyIn(keyOf, ks, p), p, of, g);
  }
}
