/** The totals of the usage report, and that the dataset reproduces them. */
module UsageTotals {
  import opened Common
  import opened Sorting
  import opened Summation
  import opened Regrouping
  import opened UsageMetrics
  import opened UsageFacts

  const MAX_DATASET_FACTS: nat := 50000

  datatype Period = Period(from: string, to: string)

  datatype Previous = Previous(
    period: Period, requests: int, successRate: Option<real>, totalTokens: int, cost: real, averageLatency: real)

  datatype Totals = Totals(
    requests: int, successes: int, failures: int, successRate: Option<real>,
    promptTokens: int, completionTokens: int, cachedTokens: int, totalTokens: int, cacheHitRate: Option<real>,
    cost: real, costByCurrency: map<string, real>,
    averageLatency: real, maxLatency: nat, averageUpstreamLatency: real, previous: Previous)

  /** The share is absent of nothing, and otherwise what makes the part out of the whole. */
  function Ratio(part: int, whole: int): (share: Option<real>)
    ensures whole == 0 <==> share == None
    ensures whole != 0 ==> share.Some? && share.value * whole as real == part as real
  {
    if whole == 0 then None else Some(part as real / whole as real)
  }

  /** The mean is zero of nothing, and otherwise what adds up to the total. */
  function Average(total: int, count: int): (mean: real)
    ensures count == 0 ==> mean == 0.0
    ensures count != 0 ==> mean * count as real == total as real
  {
    if count == 0 then 0.0 else total as real / count as real
  }

  function TotalsOf(m: Metrics, before: Metrics, costs: map<string, real>, period: Period): Totals {
    Totals(m.requests, m.successes, m.failures, Ratio(m.successes, m.requests),
           m.promptTokens, m.completionTokens, m.cachedTokens, m.totalTokens, Ratio(m.cachedTokens, m.promptTokens),
           m.cost, costs, Average(m.latencyTotal, m.latencyCount), m.latencyMax,
           Average(m.upstreamLatencyTotal, m.upstreamLatencyCount),
           Previous(period, before.requests, Ratio(before.successes, before.requests), before.totalTokens,
                    before.cost, Average(before.latencyTotal, before.latencyCount)))
  }

  function InCurrency(c: Context, currency: string): Row -> bool {
    (r: Row) => NormalizeCurrency(c, r.currency) == currency
  }

  method FilterRowsByCurrency(c: Context, rows: seq<Row>, currency: string) returns (filtered: seq<Row>)
    ensures filtered == Filter(rows, InCurrency(c, currency))
  {
    filtered := [];
    for i := 0 to |rows|
      invariant filtered == Filter(rows[..i], InCurrency(c, currency))
    {
      assert rows[..i + 1] == rows[..i] + [rows[i]];
      FilterSnoc(rows[..i], rows[i], InCurrency(c, currency));
      if NormalizeCurrency(c, rows[i].currency) == currency { filtered := filtered + [rows[i]]; }
    }
    assert rows[..|rows|] == rows;
  }

  method Accumulate(rows: seq<Row>) returns (m: Metrics)
    ensures m == SumBy(rows, OfRow, USAGE)
  {
    var current := new Accumulator();
    for i := 0 to |rows|
      invariant current.m == SumBy(rows[..i], OfRow, USAGE)
    {
      assert rows[..i + 1] == rows[..i] + [rows[i]];
      SumSnoc(rows[..i], rows[i], OfRow, USAGE);
      current.Add(rows[i]);
    }
    assert rows[..|rows|] == rows;
    m := current.m;
  }

  method BuildTotals(rows: seq<Row>, previousRows: seq<Row>, costs: map<string, real>, period: Period)
    returns (t: Totals)
    ensures t == TotalsOf(SumBy(rows, OfRow, USAGE), SumBy(previousRows, OfRow, USAGE), costs, period)
  {
    var current := Accumulate(rows);
    var previous := Accumulate(previousRows);
    t := TotalsOf(current, previous, costs, period);
  }

  datatype Dataset = TooLarge(facts: nat) | Loaded(current: seq<Fact>, previous: seq<Fact>)

  /** The previous period is grouped by day, with the same key names. */
  function ByDay(c: Context, day: int -> string): (d: Context)
    ensures d.format == day && d.names == c.names && d.upper == c.upper
  {
    c.(format := day)
  }

  ghost predicate FactsOfBoth(c: Context, day: int -> string, current: seq<Row>, previous: seq<Row>,
                              facts: seq<Fact>, earlier: seq<Fact>)
  {
    FactsOf(c, current, facts) && FactsOf(ByDay(c, day), previous, earlier)
  }

  /** Both lists of facts, or a refusal that gives their number when it is above the limit. */
  ghost predicate IsDataset(c: Context, day: int -> string, current: seq<Row>, previous: seq<Row>, d: Dataset) {
    match d
    case Loaded(facts, earlier) =>
      FactsOfBoth(c, day, current, previous, facts, earlier) && |facts| + |earlier| <= MAX_DATASET_FACTS
    case TooLarge(n) =>
      && n > MAX_DATASET_FACTS
      && exists facts, earlier :: FactsOfBoth(c, day, current, previous, facts, earlier) && n == |facts| + |earlier|
  }

  method BuildBoth(c: Context, day: int -> string, current: seq<Row>, previous: seq<Row>)
    returns (facts: seq<Fact>, earlier: seq<Fact>)
    ensures FactsOfBoth(c, day, current, previous, facts, earlier)
  {
    facts := BuildUsageFacts(c, current);
    earlier := BuildUsageFacts(ByDay(c, day), previous);
  }

  method BuildDataset(c: Context, day: int -> string, current: seq<Row>, previous: seq<Row>) returns (d: Dataset)
    ensures IsDataset(c, day, current, previous, d)
  {
    var currentFacts, previousFacts := BuildBoth(c, day, current, previous);
    var facts := |currentFacts| + |previousFacts|;
    if facts > MAX_DATASET_FACTS { return TooLarge(facts); }
    return Loaded(currentFacts, previousFacts);
  }

  function WantCurrency(currency: string): Dims -> bool {
    (d: Dims) => d.currency == currency
  }

  /** The metrics of the facts of one currency. */
  function FactsIn(facts: seq<Fact>, currency: string): Metrics {
    SumWhere(facts, Meets(FactDims, WantCurrency(currency)), MetricsOf, USAGE)
  }

  lemma FactsOfCurrency(c: Context, rows: seq<Row>, facts: seq<Fact>, currency: string)
    requires FactsOf(c, rows, facts) && NoCollision(c, rows)
    ensures FactsIn(facts, currency) == UsageWhere(rows, InCurrency(c, currency))
  {
    FactsReaggregate(c, rows, facts, WantCurrency(currency));
    SumWhereCongruent(rows, Meets(DimsOf(c), WantCurrency(currency)), InCurrency(c, currency), OfRow, USAGE);
  }

  /** Totals recomputed from the dataset's facts of a currency are the totals of the report for
      the same rows and currency, previous period included. */
  lemma DatasetReproducesTotals(c: Context, day: int -> string, rows: seq<Row>, previousRows: seq<Row>,
                                facts: seq<Fact>,
                                earlier: seq<Fact>, currency: string, costs: map<string, real>, period: Period)
    requires FactsOf(c, rows, facts) && NoCollision(c, rows)
    requires FactsOf(ByDay(c, day), previousRows, earlier) && NoCollision(ByDay(c, day), previousRows)
    ensures TotalsOf(FactsIn(facts, currency), FactsIn(earlier, currency), costs, period) ==
            TotalsOf(UsageWhere(rows, InCurrency(c, currency)), UsageWhere(previousRows, InCurrency(c, currency)),
                     costs, period)
  {
    FactsOfCurrency(c, rows, facts, currency);
    FactsOfCurrency(ByDay(c, day), previousRows, earlier, currency);
    SumWhereCongruent(previousRows, InCurrency(ByDay(c, day), currency), InCurrency(c, currency), OfRow, USAGE);
  }

  /** Totals, field by field. */
  lemma TotalsAreTheirMetrics(m: Metrics, p: Metrics, costs: map<string, real>, period: Period)
    ensures var t := TotalsOf(m, p, costs, period);
            && t.requests == m.requests && t.successes == m.successes && t.failures == m.failures
            && t.promptTokens == m.promptTokens && t.completionTokens == m.completionTokens
            && t.cachedTokens == m.cachedTokens && t.totalTokens == m.totalTokens
            && t.cost == m.cost && t.costByCurrency == costs && t.maxLatency == m.latencyMax
            && t.successRate == Ratio(m.successes, m.requests)
            && t.cacheHitRate == Ratio(m.cachedTokens, m.promptTokens)
            && t.averageLatency == Average(m.latencyTotal, m.latencyCount)
            && t.averageUpstreamLatency == Average(m.upstreamLatencyTotal, m.upstreamLatencyCount)
            && t.previous.period == period && t.previous.requests == p.requests
            && t.previous.totalTokens == p.totalTokens && t.previous.cost == p.cost
            && t.previous.successRate == Ratio(p.successes, p.requests)
            && t.previous.averageLatency == Average(p.latencyTotal, p.latencyCount)
  {
  }

  /** The dataset is refused above fifty thousand facts, and only then. */
  lemma DatasetIsLimited(c: Context, day: int -> string, current: seq<Row>, previous: seq<Row>, d: Dataset)
    requires IsDataset(c, day, current, previous, d)
    ensures d.Loaded? ==> |d.current| + |d.previous| <= 50000
    ensures d.TooLarge? ==> d.facts > 50000
  {
  }
}
