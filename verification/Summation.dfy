/** Sums over lists in any commutative monoid, and conservation of sums under grouping. */
module Summation {
  import opened Sorting

  datatype Monoid<!M> = Monoid(zero: M, plus: (M, M) -> M)

  ghost predicate Laws<M>(g: Monoid<M>, a: M, b: M, c: M) {
    && g.plus(a, b) == g.plus(b, a)
    && g.plus(g.plus(a, b), c) == g.plus(a, g.plus(b, c))
    && g.plus(a, g.zero) == a
  }

  /** Commutative, associative, with a unit. */
  ghost predicate Lawful<M(!new)>(g: Monoid<M>) {
    forall a: M, b: M, c: M :: Laws(g, a, b, c)
  }

  lemma Swap<M(!new)>(g: Monoid<M>, a: M, b: M, c: M)
    requires Lawful(g)
    ensures g.plus(g.plus(a, b), c) == g.plus(g.plus(a, c), b)
  {
    assert Laws(g, a, b, c) && Laws(g, a, c, b) && Laws(g, b, c, a);
  }

  lemma Assoc<M(!new)>(g: Monoid<M>, a: M, b: M, c: M)
    requires Lawful(g)
    ensures g.plus(g.plus(a, b), c) == g.plus(a, g.plus(b, c))
  {
    assert Laws(g, a, b, c);
  }

  lemma Unit<M(!new)>(g: Monoid<M>, a: M)
    requires Lawful(g)
    ensures g.plus(a, g.zero) == a == g.plus(g.zero, a)
  {
    assert Laws(g, a, g.zero, a);
  }

  function SumBy<T, M>(s: seq<T>, f: T -> M, g: Monoid<M>): M {
    if s == [] then g.zero else g.plus(SumBy(s[..|s| - 1], f, g), f(s[|s| - 1]))
  }

  /** The sum of the rows that meet a condition. */
  function SumWhere<R, M>(rows: seq<R>, p: R -> bool, of: R -> M, g: Monoid<M>): M {
    SumBy(Filter(rows, p), of, g)
  }

  lemma SumSnoc<T, M>(s: seq<T>, x: T, f: T -> M, g: Monoid<M>)
    ensures SumBy(s + [x], f, g) == g.plus(SumBy(s, f, g), f(x))
  {
    assert (s + [x])[..|s|] == s;
  }

  lemma {:induction false} SumConcat<T, M(!new)>(a: seq<T>, b: seq<T>, f: T -> M, g: Monoid<M>)
    requires Lawful(g)
    ensures SumBy(a + b, f, g) == g.plus(SumBy(a, f, g), SumBy(b, f, g))
  {
    if b == [] {
      assert a + b == a;
      Unit(g, SumBy(a, f, g));
    } else {
      var init, last := b[..|b| - 1], b[|b| - 1];
      SumConcat(a, init, f, g);
      assert a + b == (a + init) + [last];
      SumSnoc(a + init, last, f, g);
      Assoc(g, SumBy(a, f, g), SumBy(init, f, g), f(last));
    }
  }

  /** Folding the tail of a list into one element keeps the sum. */
  lemma SumWithTailFolded<S, T, M(!new)>(s: seq<S>, t: seq<T>, n: nat, f: S -> M, h: T -> M, g: Monoid<M>)
    requires Lawful(g) && |s| == n + 1 && n <= |t|
    requires SumBy(s[..n], f, g) == SumBy(t[..n], h, g) && f(s[n]) == SumBy(t[n..], h, g)
    ensures SumBy(s, f, g) == SumBy(t, h, g)
  {
    assert t == t[..n] + t[n..];
    SumConcat(t[..n], t[n..], h, g);
  }

  /** The sum does not depend on the order in which a map is walked or a list is sorted. */
  lemma {:induction false} SumOfPermutation<T, M(!new)>(a: seq<T>, b: seq<T>, f: T -> M, g: Monoid<M>)
    requires Lawful(g) && multiset(a) == multiset(b)
    ensures SumBy(a, f, g) == SumBy(b, f, g)
    decreases |a|
  {
    if a == [] {
      assert |multiset(b)| == 0;
    } else {
      var init, last := a[..|a| - 1], a[|a| - 1];
      var i := Pull(a, b);
      var front, back := b[..i], b[i + 1..];
      assert b == front + [last] + back;
      SumOfPermutation(init, front + back, f, g);
      SumConcat(front, back, f, g);
      SumSnoc(front, last, f, g);
      SumConcat(front + [last], back, f, g);
      Swap(g, SumBy(front, f, g), f(last), SumBy(back, f, g));
    }
  }

  lemma Pull<T>(a: seq<T>, b: seq<T>) returns (i: nat)
    requires a != [] && multiset(a) == multiset(b)
    ensures i < |b| && b[i] == a[|a| - 1]
    ensures multiset(a[..|a| - 1]) == multiset(b[..i] + b[i + 1..])
  {
    var init, last := a[..|a| - 1], a[|a| - 1];
    assert a == init + [last];
    assert last in multiset(b);
    i :| 0 <= i < |b| && b[i] == last;
    assert b == b[..i] + [last] + b[i + 1..];
    assert multiset(init) == multiset(a) - multiset{last};
    assert multiset(b[..i]) + multiset(b[i + 1..]) == multiset(b) - multiset{last};
  }

  /** A mapped list sums like the list. */
  lemma {:induction false} SumOfMapped<S, T, M>(s: seq<S>, t: seq<T>, f: S -> M, h: T -> M, g: Monoid<M>)
    requires |s| == |t| && forall i :: 0 <= i < |s| ==> f(s[i]) == h(t[i])
    ensures SumBy(s, f, g) == SumBy(t, h, g)
  {
    if s != [] {
      SumOfMapped(s[..|s| - 1], t[..|t| - 1], f, h, g);
    }
  }

  lemma SumWhereSnoc<R, M>(rows: seq<R>, r: R, p: R -> bool, of: R -> M, g: Monoid<M>)
    ensures SumWhere(rows + [r], p, of, g) ==
            if p(r) then g.plus(SumWhere(rows, p, of, g), of(r)) else SumWhere(rows, p, of, g)
  {
    FilterSnoc(rows, r, p);
    if p(r) { SumSnoc(Filter(rows, p), r, of, g); }
  }

  lemma SumWhereCongruent<R, M>(rows: seq<R>, p: R -> bool, q: R -> bool, of: R -> M, g: Monoid<M>)
    requires forall r :: r in rows ==> p(r) == q(r)
    ensures SumWhere(rows, p, of, g) == SumWhere(rows, q, of, g)
  {
    FilterCongruent(rows, p, q);
  }

  /** Two disjoint conditions split a sum. */
  lemma {:induction false} SumSplits<R, M(!new)>(rows: seq<R>, p: R -> bool, q: R -> bool, either: R -> bool,
                                                 of: R -> M, g: Monoid<M>)
    requires Lawful(g)
    requires forall r :: r in rows ==> !(p(r) && q(r)) && (either(r) <==> p(r) || q(r))
    ensures SumWhere(rows, either, of, g) == g.plus(SumWhere(rows, p, of, g), SumWhere(rows, q, of, g))
  {
    if rows == [] {
      Unit(g, g.zero);
    } else {
      var init, last := rows[..|rows| - 1], rows[|rows| - 1];
      assert rows == init + [last];
      assert last in rows;
      SumSplits(init, p, q, either, of, g);
      SumWhereSnoc(init, last, p, of, g);
      SumWhereSnoc(init, last, q, of, g);
      SumWhereSnoc(init, last, either, of, g);
      Swap(g, SumWhere(init, p, of, g), SumWhere(init, q, of, g), of(last));
      Assoc(g, SumWhere(init, p, of, g), SumWhere(init, q, of, g), of(last));
    }
  }

  lemma {:induction false} SumOfNone<R, M>(rows: seq<R>, p: R -> bool, of: R -> M, g: Monoid<M>)
    requires forall r :: r in rows ==> !p(r)
    ensures SumWhere(rows, p, of, g) == g.zero
  {
    if rows != [] {
      var init, last := rows[..|rows| - 1], rows[|rows| - 1];
      SumOfNone(init, p, of, g);
      assert last in rows;
      assert rows == init + [last];
      SumWhereSnoc(init, last, p, of, g);
    }
  }

  // ----- Grouping -----

  function KeyIs<R>(keyOf: R -> string, k: string, p: R -> bool): R -> bool {
    (r: R) => keyOf(r) == k && p(r)
  }

  function KeyIn<R>(keyOf: R -> string, ks: seq<string>, p: R -> bool): R -> bool {
    (r: R) => keyOf(r) in ks && p(r)
  }

  function GroupSum<R, M>(rows: seq<R>, keyOf: R -> string, p: R -> bool, of: R -> M, g: Monoid<M>): string -> M {
    (k: string) => SumWhere(rows, KeyIs(keyOf, k, p), of, g)
  }

  /** Conservation: the sums of distinct groups add up to the sum of the rows in those groups. */
  lemma {:induction false} GroupsAddUp<R, M(!new)>(rows: seq<R>, keyOf: R -> string, ks: seq<string>, p: R -> bool,
                                                   of: R -> M, g: Monoid<M>)
    requires Lawful(g) && Distinct(ks)
    ensures SumBy(ks, GroupSum(rows, keyOf, p, of, g), g) == SumWhere(rows, KeyIn(keyOf, ks, p), of, g)
  {
    if ks == [] {
      SumOfNone(rows, KeyIn(keyOf, ks, p), of, g);
    } else {
      var init, last := ks[..|ks| - 1], ks[|ks| - 1];
      assert ks == init + [last];
      assert last !in init;
      GroupsAddUp(rows, keyOf, init, p, of, g);
      SumSplits(rows, KeyIn(keyOf, init, p), KeyIs(keyOf, last, p), KeyIn(keyOf, ks, p), of, g);
    }
  }
}
