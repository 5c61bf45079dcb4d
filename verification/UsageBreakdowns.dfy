/** Breakdowns of usage by site, model and API key: the twenty highest-ranked members of each
    dimension. */
module UsageBreakdowns {
  import opened Common
  import opened Sorting
  import opened Summation
  import opened Grouping
  import opened UsageMetrics
  import opened UsageFacts
  import opened UsageTotals

  const BREAKDOWN_LIMIT: nat := 20

  datatype Aggregate = Aggregate(ref: Ref, metrics: Metrics)

  function KeyBy(dim: Row -> Ref): Row -> string {
    (r: Row) => dim(r).key
  }

  /** A later row may supply a name or an identifier that the first row of the member lacked. */
  function Refine(held: Ref, seen: Ref): Ref {
    Ref(held.key,
        if held.id.None? && seen.id.Some? then seen.id else held.id,
        if held.name == UNKNOWN && seen.name != UNKNOWN then seen.name else held.name)
  }

  function AddAggregate(dim: Row -> Ref, m: map<string, Aggregate>, r: Row): map<string, Aggregate> {
    var ref := dim(r);
    var prior := if ref.key in m then m[ref.key] else Aggregate(ref, ZERO);
    m[ref.key := Aggregate(Refine(prior.ref, ref), Plus(prior.metrics, OfRow(r)))]
  }

  function Aggregates(dim: Row -> Ref, rows: seq<Row>): map<string, Aggregate> {
    if rows == [] then map[] else AddAggregate(dim, Aggregates(dim, rows[..|rows| - 1]), rows[|rows| - 1])
  }

  lemma AggregatesSnoc(dim: Row -> Ref, rows: seq<Row>, r: Row)
    ensures Aggregates(dim, rows + [r]) == AddAggregate(dim, Aggregates(dim, rows), r)
  {
    assert (rows + [r])[..|rows|] == rows;
  }

  /** There is one aggregate per key of a row. */
  lemma {:induction false} AggregateKeys(dim: Row -> Ref, rows: seq<Row>, k: string)
    ensures k in Aggregates(dim, rows) <==> exists r :: r in rows && KeyBy(dim)(r) == k
    ensures k in Aggregates(dim, rows) ==> Aggregates(dim, rows)[k].ref.key == k
  {
    if rows != [] {
      var init, last := rows[..|rows| - 1], rows[|rows| - 1];
      AggregateKeys(dim, init, k);
      assert rows == init + [last];
      assert forall r :: r in init ==> r in rows;
      assert last in rows;
    }
  }

  function HeldBy(dim: Row -> Ref, rows: seq<Row>, k: string): Metrics {
    if k in Aggregates(dim, rows) then Aggregates(dim, rows)[k].metrics else ZERO
  }

  lemma HeldStep(dim: Row -> Ref, init: seq<Row>, last: Row, k: string)
    ensures HeldBy(dim, init + [last], k) ==
            if KeyIs(KeyBy(dim), k, ALL)(last) then Plus(HeldBy(dim, init, k), OfRow(last)) else HeldBy(dim, init, k)
  {
    AggregatesSnoc(dim, init, last);
  }

  /** An aggregate holds the sum of the rows with its key. */
  lemma {:induction false} AggregateHolds(dim: Row -> Ref, rows: seq<Row>, k: string)
    ensures HeldBy(dim, rows, k) == UsageWhere(rows, KeyIs(KeyBy(dim), k, ALL))
  {
    if rows != [] {
      var init, last := rows[..|rows| - 1], rows[|rows| - 1];
      assert rows == init + [last];
      AggregateHolds(dim, init, k);
      HeldStep(dim, init, last, k);
      SumWhereSnoc(init, last, KeyIs(KeyBy(dim), k, ALL), OfRow, USAGE);
    }
  }

  /** What a reference may lack: a name or an identifier. */
  function NameIn(ref: Ref): Option<string> {
    if ref.name == UNKNOWN then None else Some(ref.name)
  }

  function IdIn(ref: Ref): Option<string> {
    ref.id
  }

  /** Row `i` is the first row with the key that carries the detail. */
  ghost predicate FirstKnown(dim: Row -> Ref, rows: seq<Row>, k: string, detail: Ref -> Option<string>, i: int) {
    && 0 <= i < |rows| && dim(rows[i]).key == k && detail(dim(rows[i])).Some?
    && forall j :: 0 <= j < i && dim(rows[j]).key == k ==> detail(dim(rows[j])).None?
  }

  /** `held` is the first known detail among the rows with the key, or none of them has it. */
  ghost predicate Knows(dim: Row -> Ref, rows: seq<Row>, k: string, detail: Ref -> Option<string>, held: Option<string>)
  {
    if held.Some? then exists i :: FirstKnown(dim, rows, k, detail, i) && detail(dim(rows[i])) == held
    else forall j :: 0 <= j < |rows| && dim(rows[j]).key == k ==> detail(dim(rows[j])).None?
  }

  lemma DetailIsKept(dim: Row -> Ref, init: seq<Row>, last: Row, k: string, detail: Ref -> Option<string>,
                     held: Option<string>)
    requires Knows(dim, init, k, detail, held) && held.Some?
    ensures Knows(dim, init + [last], k, detail, held)
  {
    var i :| FirstKnown(dim, init, k, detail, i) && detail(dim(init[i])) == held;
    assert FirstKnown(dim, init + [last], k, detail, i);
  }

  lemma DetailIsFound(dim: Row -> Ref, init: seq<Row>, last: Row, k: string, detail: Ref -> Option<string>)
    requires Knows(dim, init, k, detail, None)
    ensures Knows(dim, init + [last], k, detail, if dim(last).key == k then detail(dim(last)) else None)
  {
    if dim(last).key == k && detail(dim(last)).Some? {
      assert FirstKnown(dim, init + [last], k, detail, |init|);
    }
  }

  function DetailHeld(dim: Row -> Ref, rows: seq<Row>, k: string, detail: Ref -> Option<string>): Option<string> {
    if k in Aggregates(dim, rows) then detail(Aggregates(dim, rows)[k].ref) else None
  }

  lemma {:induction false} AggregateKnows(dim: Row -> Ref, rows: seq<Row>, k: string, detail: Ref -> Option<string>)
    requires detail == NameIn || detail == IdIn
    ensures Knows(dim, rows, k, detail, DetailHeld(dim, rows, k, detail))
  {
    if rows != [] {
      var init, last := rows[..|rows| - 1], rows[|rows| - 1];
      assert rows == init + [last];
      AggregatesSnoc(dim, init, last);
      AggregateKnows(dim, init, k, detail);
      var held := DetailHeld(dim, init, k, detail);
      if held.Some? {
        DetailIsKept(dim, init, last, k, detail, held);
      } else {
        DetailIsFound(dim, init, last, k, detail);
      }
    }
  }

  /** An aggregate carries the first known name and the first known identifier of its rows, and
      lacks one only if all its rows do. */
  lemma AggregateIsNamed(dim: Row -> Ref, rows: seq<Row>, k: string)
    ensures Knows(dim, rows, k, NameIn, DetailHeld(dim, rows, k, NameIn))
    ensures Knows(dim, rows, k, IdIn, DetailHeld(dim, rows, k, IdIn))
  {
    AggregateKnows(dim, rows, k, NameIn);
    AggregateKnows(dim, rows, k, IdIn);
  }

  // ----- Costs -----

  function AddCost(dim: Row -> Ref, m: map<string, real>, r: Row): map<string, real> {
    var k := dim(r).key;
    m[k := (if k in m then m[k] else 0.0) + r.estimatedCost]
  }

  function Costs(dim: Row -> Ref, rows: seq<Row>): map<string, real> {
    if rows == [] then map[] else AddCost(dim, Costs(dim, rows[..|rows| - 1]), rows[|rows| - 1])
  }

  /** The cost collected under a key is the cost of its aggregate, that is of its rows. */
  lemma {:induction false} CostsAreAggregated(dim: Row -> Ref, rows: seq<Row>, k: string)
    ensures k in Costs(dim, rows) <==> k in Aggregates(dim, rows)
    ensures k in Aggregates(dim, rows) ==> Costs(dim, rows)[k] == Aggregates(dim, rows)[k].metrics.cost
  {
    if rows != [] {
      CostsAreAggregated(dim, rows[..|rows| - 1], k);
    }
  }

  // ----- The shown entries -----

  datatype Item = Item(
    key: string, id: Option<string>, name: string,
    requests: int, successes: int, failures: int, successRate: Option<real>,
    promptTokens: int, completionTokens: int, cachedTokens: int, totalTokens: int,
    cost: real, averageLatency: real, maxLatency: nat)

  function ItemOf(a: Aggregate): Item {
    var m := a.metrics;
    Item(a.ref.key, a.ref.id, a.ref.name, m.requests, m.successes, m.failures, Ratio(m.successes, m.requests),
         m.promptTokens, m.completionTokens, m.cachedTokens, m.totalTokens,
         m.cost, Average(m.latencyTotal, m.latencyCount), m.latencyMax)
  }

  /** The additive part of an entry and its maximum latency, as metrics. */
  function ItemShows(i: Item): Metrics {
    Metrics(i.requests, i.successes, i.failures, i.promptTokens, i.completionTokens, i.cachedTokens,
            i.totalTokens, i.cost, 0, 0, i.maxLatency, 0, 0)
  }

  function AggregateRank(a: Aggregate): Rank {
    Rank(a.metrics.cost, a.metrics.requests, a.ref.name)
  }

  function Held(a: Aggregate): Metrics {
    a.metrics
  }

  function CutAt(n: nat, limit: nat): nat {
    if n > limit then limit else n
  }

  ghost predicate AggregateRanking(m: map<string, Aggregate>, ranking: seq<Aggregate>) {
    exists ks :: Enumerates(m, ks) && ranking == StableSort(Values(m, ks), ByRank(AggregateRank))
  }

  ghost predicate ItemsOf(ranking: seq<Aggregate>, items: seq<Item>) {
    && |items| == CutAt(|ranking|, BREAKDOWN_LIMIT)
    && forall i :: 0 <= i < |items| ==> items[i] == ItemOf(ranking[i])
  }

  method BreakdownItems(m: map<string, Aggregate>) returns (items: seq<Item>)
    ensures exists ranking :: AggregateRanking(m, ranking) && ItemsOf(ranking, items)
  {
    var ks := Walk(m);
    var ordered := StableSort(Values(m, ks), ByRank(AggregateRank));
    ghost var ranking := ordered;
    if |ordered| > BREAKDOWN_LIMIT {
      ordered := ordered[..BREAKDOWN_LIMIT];
    }
    items := [];
    for i := 0 to |ordered|
      invariant |items| == i
      invariant forall j :: 0 <= j < i ==> items[j] == ItemOf(ordered[j])
    {
      items := items + [ItemOf(ordered[i])];
    }
    assert AggregateRanking(m, ranking) && ItemsOf(ranking, items);
  }

  lemma RankedAreAggregates(m: map<string, Aggregate>, ranking: seq<Aggregate>, a: Aggregate)
    requires AggregateRanking(m, ranking) && a in ranking
    ensures HasValue(m, a)
  {
    var ks :| Enumerates(m, ks) && ranking == StableSort(Values(m, ks), ByRank(AggregateRank));
    RankingIsStrictWeak(AggregateRank);
    SortedValues(m, ks, ByRank(AggregateRank), a);
  }

  /** Every entry shows its member's reference, and counts, rates and latencies of the sum of the
      rows with its key. */
  lemma ItemIsItsRows(dim: Row -> Ref, rows: seq<Row>, ranking: seq<Aggregate>, items: seq<Item>, i: nat)
    requires AggregateRanking(Aggregates(dim, rows), ranking) && ItemsOf(ranking, items) && i < |items|
    ensures var m, k := Aggregates(dim, rows), items[i].key;
            k in m && items[i] == ItemOf(Aggregate(m[k].ref, UsageWhere(rows, KeyIs(KeyBy(dim), k, ALL))))
  {
    var m := Aggregates(dim, rows);
    assert ranking[i] in ranking;
    RankedAreAggregates(m, ranking, ranking[i]);
    var k :| k in m && m[k] == ranking[i];
    AggregateKeys(dim, rows, k);
    AggregateHolds(dim, rows, k);
  }

  /** No member has two entries. */
  lemma ItemKeysAreDistinct(dim: Row -> Ref, rows: seq<Row>, ranking: seq<Aggregate>, items: seq<Item>, i: nat, j: nat)
    requires AggregateRanking(Aggregates(dim, rows), ranking) && ItemsOf(ranking, items) && i < j < |items|
    ensures items[i].key != items[j].key
  {
    var m := Aggregates(dim, rows);
    var ks :| Enumerates(m, ks) && ranking == StableSort(Values(m, ks), ByRank(AggregateRank));
    forall a, b | 0 <= a < b < |ks| ensures Values(m, ks)[a] != Values(m, ks)[b] {
      assert ks[a] in ks && ks[b] in ks;
      AggregateKeys(dim, rows, ks[a]);
      AggregateKeys(dim, rows, ks[b]);
    }
    RankingIsStrictWeak(AggregateRank);
    SortIsOrderedPermutation(Values(m, ks), ByRank(AggregateRank));
    RearrangedIsDistinct(Values(m, ks), ranking);
    ItemIsItsRows(dim, rows, ranking, items, i);
    ItemIsItsRows(dim, rows, ranking, items, j);
    RankedUnderKey(dim, rows, ranking, ranking[i]);
    RankedUnderKey(dim, rows, ranking, ranking[j]);
  }

  lemma RankedUnderKey(dim: Row -> Ref, rows: seq<Row>, ranking: seq<Aggregate>, a: Aggregate)
    requires AggregateRanking(Aggregates(dim, rows), ranking) && a in ranking
    ensures a.ref.key in Aggregates(dim, rows) && Aggregates(dim, rows)[a.ref.key] == a
  {
    RankedAreAggregates(Aggregates(dim, rows), ranking, a);
    var k :| k in Aggregates(dim, rows) && Aggregates(dim, rows)[k] == a;
    AggregateKeys(dim, rows, k);
  }

  lemma RankingHoldsAllRows(dim: Row -> Ref, rows: seq<Row>, ranking: seq<Aggregate>)
    requires AggregateRanking(Aggregates(dim, rows), ranking)
    ensures SumWhere(ranking, ANY, Held, USAGE) == UsageWhere(rows, ALL)
  {
    var m := Aggregates(dim, rows);
    var ks :| Enumerates(m, ks) && ranking == StableSort(Values(m, ks), ByRank(AggregateRank));
    UsageIsLawful();
    RankingIsStrictWeak(AggregateRank);
    SumOfSorted(Values(m, ks), ByRank(AggregateRank), ANY, Held, USAGE);
    forall r | r in rows ensures KeyBy(dim)(r) in m { AggregateKeys(dim, rows, KeyBy(dim)(r)); }
    forall k | k in m ensures GroupHolds(rows, KeyBy(dim), ALL, OfRow, ANY, Held, USAGE, k, m[k]) {
      AggregateHolds(dim, rows, k);
    }
    GroupsSumToRows(rows, KeyBy(dim), m, ks, ALL, OfRow, ANY, Held, USAGE);
  }

  const ANY: Aggregate -> bool := (a: Aggregate) => true

  lemma {:induction false} FirstItemsShow(ranking: seq<Aggregate>, items: seq<Item>)
    requires |items| <= |ranking| && forall i :: 0 <= i < |items| ==> items[i] == ItemOf(ranking[i])
    ensures SumBy(items, ItemShows, USAGE) == Visible(SumBy(ranking[..|items|], Held, USAGE))
  {
    if items != [] {
      var n := |items| - 1;
      FirstItemsShow(ranking, items[..n]);
      assert ranking[..n + 1] == ranking[..n] + [ranking[n]];
      SumSnoc(ranking[..n], ranking[n], Held, USAGE);
      VisibleAdds(SumBy(ranking[..n], Held, USAGE), Held(ranking[n]));
    }
  }

  /** The shown entries and the members that were cut off add up to the totals. */
  lemma EntriesAndCutAddUp(dim: Row -> Ref, rows: seq<Row>, ranking: seq<Aggregate>, items: seq<Item>)
    requires AggregateRanking(Aggregates(dim, rows), ranking) && ItemsOf(ranking, items)
    ensures Visible(SumBy(rows, OfRow, USAGE)) ==
            Plus(SumBy(items, ItemShows, USAGE), Visible(SumBy(ranking[|items|..], Held, USAGE)))
  {
    var n := |items|;
    FirstItemsShow(ranking, items);
    RankingHoldsAllRows(dim, rows, ranking);
    FilterAll(ranking, ANY);
    FilterAll(rows, ALL);
    SumAround(ranking, n);
    VisibleAdds(SumBy(ranking[..n], Held, USAGE), SumBy(ranking[n..], Held, USAGE));
  }

  lemma SumAround(ranking: seq<Aggregate>, n: nat)
    requires n <= |ranking|
    ensures SumBy(ranking, Held, USAGE) == Plus(SumBy(ranking[..n], Held, USAGE), SumBy(ranking[n..], Held, USAGE))
  {
    assert ranking == ranking[..n] + ranking[n..];
    UsageIsLawful();
    SumConcat(ranking[..n], ranking[n..], Held, USAGE);
  }

  /** With at most twenty members, the entries of a dimension add up to the totals. */
  lemma EntriesAddUpToTotals(dim: Row -> Ref, rows: seq<Row>, ranking: seq<Aggregate>, items: seq<Item>)
    requires AggregateRanking(Aggregates(dim, rows), ranking) && ItemsOf(ranking, items)
    requires |ranking| <= BREAKDOWN_LIMIT
    ensures SumBy(items, ItemShows, USAGE) == Visible(SumBy(rows, OfRow, USAGE))
  {
    EntriesAndCutAddUp(dim, rows, ranking, items);
    assert ranking[|items|..] == [];
    PlusZero(SumBy(items, ItemShows, USAGE));
  }

  /** No member that was cut off outranks a shown one. */
  lemma ShownOutrankCut(m: map<string, Aggregate>, ranking: seq<Aggregate>, i: nat, j: nat)
    requires AggregateRanking(m, ranking) && i < BREAKDOWN_LIMIT <= j < |ranking|
    ensures !Outranks(AggregateRank(ranking[j]), AggregateRank(ranking[i]))
  {
    var ks :| Enumerates(m, ks) && ranking == StableSort(Values(m, ks), ByRank(AggregateRank));
    RankingIsStrictWeak(AggregateRank);
    SortIsOrderedPermutation(Values(m, ks), ByRank(AggregateRank));
    assert !ByRank(AggregateRank)(ranking[j], ranking[i]);
  }

  // ----- Entries, in numbers -----

  /** An entry shows its aggregate, field by field. */
  lemma ItemIsItsMetrics(a: Aggregate)
    ensures var i, m := ItemOf(a), a.metrics;
            && i.key == a.ref.key && i.id == a.ref.id && i.name == a.ref.name
            && i.requests == m.requests && i.successes == m.successes && i.failures == m.failures
            && i.promptTokens == m.promptTokens && i.completionTokens == m.completionTokens
            && i.cachedTokens == m.cachedTokens && i.totalTokens == m.totalTokens && i.cost == m.cost
            && i.maxLatency == m.latencyMax
            && (m.requests == 0 ==> i.successRate == None)
            && (m.requests != 0 ==> i.successRate == Some(m.successes as real / m.requests as real))
            && i.averageLatency == if m.latencyCount == 0 then 0.0 else m.latencyTotal as real / m.latencyCount as real
  {
  }

  /** Each shown entry has cost at least as much as each cut member, on equal cost made at least as
      many requests, and on equal requests has no later name. */
  lemma ShownOutspendCut(dim: Row -> Ref, rows: seq<Row>, ranking: seq<Aggregate>, i: nat, j: nat)
    requires AggregateRanking(Aggregates(dim, rows), ranking) && i < 20 <= j < |ranking|
    ensures var k, f := UsageWhere(rows, KeyIs(KeyBy(dim), ranking[i].ref.key, ALL)),
                        UsageWhere(rows, KeyIs(KeyBy(dim), ranking[j].ref.key, ALL));
            || k.cost > f.cost
            || (k.cost == f.cost && k.requests > f.requests)
            || (k.cost == f.cost && k.requests == f.requests && !Less(ranking[j].ref.name, ranking[i].ref.name))
  {
    ShownOutrankCut(Aggregates(dim, rows), ranking, i, j);
    NotOutranked(AggregateRank(ranking[i]), AggregateRank(ranking[j]));
    RankedUnderKey(dim, rows, ranking, ranking[i]);
    RankedUnderKey(dim, rows, ranking, ranking[j]);
    AggregateHolds(dim, rows, ranking[i].ref.key);
    AggregateHolds(dim, rows, ranking[j].ref.key);
  }

  /** Up to twenty members are all shown; of more, twenty. */
  lemma EntriesAreCounted(ranking: seq<Aggregate>, items: seq<Item>)
    requires ItemsOf(ranking, items)
    ensures |items| == if |ranking| <= 20 then |ranking| else 20
  {
  }
}
