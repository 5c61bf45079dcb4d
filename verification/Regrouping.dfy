/** When can a group-by be queried again? Rows are grouped under a string key made from their
    dimensions, and each group remembers the dimensions of one of its rows. Selecting groups by
    their dimensions and summing equals selecting the rows exactly when no two rows with
    different dimensions share a key. */
module Regrouping {
  import opened Summation
  import opened Grouping

  /** Rows have dimensions, a key made from them, and an amount; groups have dimensions and hold
      an amount; a group is opened for a row and rows are added to it. */
  datatype Scheme<!R, !V, !D, !M> = Scheme(
    dimsOf: R -> D, join: D -> string, of: R -> M,
    dims: V -> D, held: V -> M, sum: Monoid<M>,
    open: R -> V, add: (V, R) -> V)

  function KeyFor<R, V, D, M>(s: Scheme<R, V, D, M>): R -> string {
    (r: R) => s.join(s.dimsOf(r))
  }

  /** The dimensions meet a condition. */
  function Meets<T, D>(dims: T -> D, want: D -> bool): T -> bool {
    (x: T) => want(dims(x))
  }

  ghost predicate Remembers<R(!new), V, D, M>(s: Scheme<R, V, D, M>, rows: seq<R>, k: string, v: V) {
    exists r :: r in rows && KeyFor(s)(r) == k && s.dims(v) == s.dimsOf(r)
  }

  /** The map has one group per key of a row, which holds the sum of the rows with that key and
      remembers the dimensions of one of them. */
  ghost predicate GroupsOf<R(!new), V, D, M>(s: Scheme<R, V, D, M>, rows: seq<R>, m: map<string, V>) {
    && (forall r :: r in rows ==> KeyFor(s)(r) in m)
    && (forall k :: k in m ==> Remembers(s, rows, k, m[k]))
    && (forall k :: k in m ==> s.held(m[k]) == SumWhere(rows, KeyIs(KeyFor(s), k, Every()), s.of, s.sum))
  }

  // ----- Grouping row by row -----

  function AddRow<R, V, D, M>(s: Scheme<R, V, D, M>, m: map<string, V>, r: R): map<string, V> {
    var k := KeyFor(s)(r);
    m[k := s.add(if k in m then m[k] else s.open(r), r)]
  }

  function Grouped<R, V, D, M>(s: Scheme<R, V, D, M>, rows: seq<R>): map<string, V> {
    if rows == [] then map[] else AddRow(s, Grouped(s, rows[..|rows| - 1]), rows[|rows| - 1])
  }

  lemma GroupedSnoc<R, V, D, M>(s: Scheme<R, V, D, M>, rows: seq<R>, r: R)
    ensures Grouped(s, rows + [r]) == AddRow(s, Grouped(s, rows), r)
  {
    assert (rows + [r])[..|rows|] == rows;
  }

  method GroupRows<R, V, D, M>(s: Scheme<R, V, D, M>, rows: seq<R>) returns (m: map<string, V>)
    ensures m == Grouped(s, rows)
  {
    m := map[];
    for i := 0 to |rows|
      invariant m == Grouped(s, rows[..i])
    {
      assert rows[..i + 1][..i] == rows[..i];
      m := AddRow(s, m, rows[i]);
    }
    assert rows[..|rows|] == rows;
  }

  ghost predicate GrowsAt<R, V, D, M>(s: Scheme<R, V, D, M>, v: V, r: R) {
    && s.dims(s.add(v, r)) == s.dims(v) && s.held(s.add(v, r)) == s.sum.plus(s.held(v), s.of(r))
    && s.dims(s.open(r)) == s.dimsOf(r) && s.held(s.open(r)) == s.sum.zero
  }

  /** A group is opened with the dimensions of its row and nothing held; adding a row adds its
      amount and keeps the dimensions. */
  ghost predicate Grows<R(!new), V(!new), D, M>(s: Scheme<R, V, D, M>) {
    forall v: V, r: R :: GrowsAt(s, v, r)
  }

  lemma {:induction false} GroupedKeys<R(!new), V, D, M>(s: Scheme<R, V, D, M>, rows: seq<R>, k: string)
    ensures k in Grouped(s, rows) <==> exists r :: r in rows && KeyFor(s)(r) == k
  {
    if rows != [] {
      var init, last := rows[..|rows| - 1], rows[|rows| - 1];
      assert rows == init + [last];
      GroupedKeys(s, init, k);
      GroupedSnoc(s, init, last);
      assert forall r :: r in init ==> r in rows;
      assert last in rows;
    }
  }

  lemma RemembersStill<R(!new), V, D, M>(s: Scheme<R, V, D, M>, rows: seq<R>, last: R, k: string, v: V, v': V)
    requires Remembers(s, rows, k, v) && s.dims(v) == s.dims(v')
    ensures Remembers(s, rows + [last], k, v')
  {
    var r :| r in rows && KeyFor(s)(r) == k && s.dims(v) == s.dimsOf(r);
    assert r in rows + [last];
  }

  lemma RemembersLast<R(!new), V, D, M>(s: Scheme<R, V, D, M>, rows: seq<R>, last: R, v: V)
    requires s.dims(v) == s.dimsOf(last)
    ensures Remembers(s, rows + [last], KeyFor(s)(last), v)
  {
    assert last in rows + [last];
  }

  lemma {:induction false} GroupedRemembers<R(!new), V(!new), D, M>(s: Scheme<R, V, D, M>, rows: seq<R>, k: string)
    requires Grows(s) && k in Grouped(s, rows)
    ensures Remembers(s, rows, k, Grouped(s, rows)[k])
  {
    var init, last := rows[..|rows| - 1], rows[|rows| - 1];
    assert rows == init + [last];
    GroupedSnoc(s, init, last);
    var v := Grouped(s, rows)[k];
    if k in Grouped(s, init) {
      assert GrowsAt(s, Grouped(s, init)[k], last);
      GroupedRemembers(s, init, k);
      RemembersStill(s, init, last, k, Grouped(s, init)[k], v);
    } else {
      assert GrowsAt(s, s.open(last), last);
      RemembersLast(s, init, last, v);
    }
  }

  function HeldAt<R, V, D, M>(s: Scheme<R, V, D, M>, m: map<string, V>, k: string): M {
    if k in m then s.held(m[k]) else s.sum.zero
  }

  lemma HeldStep<R(!new), V(!new), D, M>(s: Scheme<R, V, D, M>, m: map<string, V>, r: R, k: string)
    requires Grows(s)
    ensures HeldAt(s, AddRow(s, m, r), k) ==
            if KeyFor(s)(r) == k then s.sum.plus(HeldAt(s, m, k), s.of(r)) else HeldAt(s, m, k)
  {
    assert GrowsAt(s, if k in m then m[k] else s.open(r), r);
  }

  lemma {:induction false} GroupedHolds<R(!new), V(!new), D, M>(s: Scheme<R, V, D, M>, rows: seq<R>, k: string)
    requires Grows(s)
    ensures HeldAt(s, Grouped(s, rows), k) == SumWhere(rows, KeyIs(KeyFor(s), k, Every()), s.of, s.sum)
  {
    if rows != [] {
      var init, last := rows[..|rows| - 1], rows[|rows| - 1];
      assert rows == init + [last];
      GroupedHolds(s, init, k);
      GroupedSnoc(s, init, last);
      HeldStep(s, Grouped(s, init), last, k);
      SumWhereSnoc(init, last, KeyIs(KeyFor(s), k, Every()), s.of, s.sum);
    }
  }

  /** Grouping row by row gives the groups. */
  lemma GroupedIsGroups<R(!new), V(!new), D, M>(s: Scheme<R, V, D, M>, rows: seq<R>)
    requires Grows(s)
    ensures GroupsOf(s, rows, Grouped(s, rows))
  {
    forall r | r in rows ensures KeyFor(s)(r) in Grouped(s, rows) { GroupedKeys(s, rows, KeyFor(s)(r)); }
    forall k | k in Grouped(s, rows)
      ensures Remembers(s, rows, k, Grouped(s, rows)[k])
      ensures s.held(Grouped(s, rows)[k]) == SumWhere(rows, KeyIs(KeyFor(s), k, Every()), s.of, s.sum)
    {
      GroupedRemembers(s, rows, k);
      GroupedHolds(s, rows, k);
    }
  }

  /** Row `i` is the first row with the key. */
  ghost predicate FirstWith<R>(rows: seq<R>, keyOf: R -> string, k: string, i: int) {
    0 <= i < |rows| && keyOf(rows[i]) == k && forall j :: 0 <= j < i ==> keyOf(rows[j]) != k
  }

  /** What adding rows does not touch stays as the first row of the group opened it. */
  lemma {:induction false} GroupedKeeps<R(!new), V(!new), D, M, Q>(s: Scheme<R, V, D, M>, rows: seq<R>, k: string,
                                                                  kept: V -> Q)
    requires k in Grouped(s, rows) && forall v: V, r: R :: kept(s.add(v, r)) == kept(v)
    ensures exists i :: FirstWith(rows, KeyFor(s), k, i) && kept(Grouped(s, rows)[k]) == kept(s.open(rows[i]))
  {
    var init, last := rows[..|rows| - 1], rows[|rows| - 1];
    assert rows == init + [last];
    GroupedSnoc(s, init, last);
    if k in Grouped(s, init) {
      GroupedKeeps(s, init, k, kept);
      var i :| FirstWith(init, KeyFor(s), k, i) && kept(Grouped(s, init)[k]) == kept(s.open(init[i]));
      assert FirstWith(rows, KeyFor(s), k, i);
    } else {
      GroupedKeys(s, init, k);
      assert forall j :: 0 <= j < |init| ==> init[j] in init;
      assert FirstWith(rows, KeyFor(s), k, |init|);
    }
  }

  // ----- Asking again -----

  /** No two rows with different dimensions share a key. */
  ghost predicate Unmixed<R(!new), V, D, M>(s: Scheme<R, V, D, M>, rows: seq<R>) {
    forall r, r' :: r in rows && r' in rows && KeyFor(s)(r) == KeyFor(s)(r') ==> s.dimsOf(r) == s.dimsOf(r')
  }

  /** Selecting groups and summing equals selecting rows and summing. */
  ghost predicate Agrees<R, V, D, M>(s: Scheme<R, V, D, M>, rows: seq<R>, groups: seq<V>, want: D -> bool) {
    SumWhere(groups, Meets(s.dims, want), s.held, s.sum) == SumWhere(rows, Meets(s.dimsOf, want), s.of, s.sum)
  }

  lemma GroupContribution<R(!new), V, D(!new), M(!new)>(s: Scheme<R, V, D, M>, rows: seq<R>, m: map<string, V>,
                                                        want: D -> bool, k: string)
    requires GroupsOf(s, rows, m) && Unmixed(s, rows) && k in m
    ensures GroupHolds(rows, KeyFor(s), Meets(s.dimsOf, want), s.of, Meets(s.dims, want), s.held, s.sum, k, m[k])
  {
    assert Remembers(s, rows, k, m[k]);
    var r :| r in rows && KeyFor(s)(r) == k && s.dims(m[k]) == s.dimsOf(r);
    var p := Meets(s.dimsOf, want);
    if want(s.dimsOf(r)) {
      SumWhereCongruent(rows, KeyIs(KeyFor(s), k, Every()), KeyIs(KeyFor(s), k, p), s.of, s.sum);
    } else {
      SumOfNone(rows, KeyIs(KeyFor(s), k, p), s.of, s.sum);
    }
  }

  lemma UnmixedAgrees<R(!new), V, D(!new), M(!new)>(s: Scheme<R, V, D, M>, rows: seq<R>, m: map<string, V>,
                                                    ks: seq<string>, want: D -> bool)
    requires Lawful(s.sum) && GroupsOf(s, rows, m) && Unmixed(s, rows) && Enumerates(m, ks)
    ensures Agrees(s, rows, Values(m, ks), want)
  {
    forall k | k in m
      ensures GroupHolds(rows, KeyFor(s), Meets(s.dimsOf, want), s.of, Meets(s.dims, want), s.held, s.sum, k, m[k])
    {
      GroupContribution(s, rows, m, want, k);
    }
    GroupsSumToRows(rows, KeyFor(s), m, ks, Meets(s.dimsOf, want), s.of, Meets(s.dims, want), s.held, s.sum);
  }

  // ----- A mixed group loses rows -----

  ghost predicate Adds<M>(size: M -> int, g: Monoid<M>, a: M, b: M) {
    size(g.plus(a, b)) == size(a) + size(b)
  }

  /** Amounts have an additive size. */
  ghost predicate Additive<M(!new)>(size: M -> int, g: Monoid<M>) {
    size(g.zero) == 0 && forall a: M, b: M :: Adds(size, g, a, b)
  }

  lemma {:induction false} SizeOfSum<R, M(!new)>(rows: seq<R>, p: R -> bool, of: R -> M, g: Monoid<M>, size: M -> int)
    requires Additive(size, g) && forall r :: r in rows ==> size(of(r)) > 0
    ensures size(SumWhere(rows, p, of, g)) >= 0
    ensures (exists r :: r in rows && p(r)) ==> size(SumWhere(rows, p, of, g)) > 0
  {
    if rows != [] {
      var init, last := rows[..|rows| - 1], rows[|rows| - 1];
      assert rows == init + [last];
      assert last in rows;
      assert forall r :: r in init ==> r in rows;
      SizeOfSum(init, p, of, g, size);
      SumWhereSnoc(init, last, p, of, g);
      assert Adds(size, g, SumWhere(init, p, of, g), of(last));
    }
  }

  ghost function Exactly<D>(d: D): D -> bool {
    (x: D) => x == d
  }

  /** No group remembers dimensions whose key belongs to a group with other dimensions. */
  lemma ForgottenDims<R(!new), V(!new), D(!new), M(!new)>(s: Scheme<R, V, D, M>, rows: seq<R>, m: map<string, V>,
                                                          ks: seq<string>, d: D)
    requires GroupsOf(s, rows, m) && Enumerates(m, ks) && s.join(d) in m && s.dims(m[s.join(d)]) != d
    ensures SumWhere(Values(m, ks), Meets(s.dims, Exactly(d)), s.held, s.sum) == s.sum.zero
  {
    forall v | v in Values(m, ks) ensures !Meets(s.dims, Exactly(d))(v) {
      var i :| 0 <= i < |ks| && Values(m, ks)[i] == v;
      assert ks[i] in ks;
      assert Remembers(s, rows, ks[i], v);
    }
    SumOfNone(Values(m, ks), Meets(s.dims, Exactly(d)), s.held, s.sum);
  }

  lemma MixedDisagrees<R(!new), V(!new), D(!new), M(!new)>(s: Scheme<R, V, D, M>, rows: seq<R>, m: map<string, V>,
                                                           ks: seq<string>, size: M -> int)
    returns (want: D -> bool)
    requires GroupsOf(s, rows, m) && Enumerates(m, ks) && !Unmixed(s, rows)
    requires Additive(size, s.sum) && forall r :: r in rows ==> size(s.of(r)) > 0
    ensures !Agrees(s, rows, Values(m, ks), want)
  {
    var r, r' :| r in rows && r' in rows && KeyFor(s)(r) == KeyFor(s)(r') && s.dimsOf(r) != s.dimsOf(r');
    var lost := if s.dims(m[KeyFor(s)(r)]) != s.dimsOf(r) then r else r';
    var d := s.dimsOf(lost);
    want := Exactly(d);
    ForgottenDims(s, rows, m, ks, d);
    assert Meets(s.dimsOf, want)(lost);
    SizeOfSum(rows, Meets(s.dimsOf, want), s.of, s.sum, size);
  }

  /** For rows of positive size: every selection agrees if and only if no group is mixed. */
  lemma AgreesIffUnmixed<R(!new), V(!new), D(!new), M(!new)>(s: Scheme<R, V, D, M>, rows: seq<R>, m: map<string, V>,
      ks: seq<string>, size: M -> int)
    requires Lawful(s.sum) && GroupsOf(s, rows, m) && Enumerates(m, ks)
    requires Additive(size, s.sum) && forall r :: r in rows ==> size(s.of(r)) > 0
    ensures (forall want :: Agrees(s, rows, Values(m, ks), want)) <==> Unmixed(s, rows)
  {
    if Unmixed(s, rows) {
      forall want ensures Agrees(s, rows, Values(m, ks), want) { UnmixedAgrees(s, rows, m, ks, want); }
    } else {
      var want := MixedDisagrees(s, rows, m, ks, size);
    }
  }
}
