/** Usage rows, their dimensions, and the accumulators every report sums them into. Counters are
    mathematical integers and costs are reals. */
module UsageMetrics {
  import opened Common
  import opened Sorting
  import opened Summation

  const UNKNOWN := "unknown"
  const NONE := "none"
  const DEFAULT_CURRENCY := "USD"

  datatype Row = Row(
    bucketStart: int,
    siteKey: string, siteId: Option<string>, siteName: string, siteSlug: string,
    modelKey: string, modelId: Option<string>,
    siteModelKey: string, siteModelId: Option<string>, upstreamModelName: string,
    apiKeyId: Option<string>, apiKeyName: string,
    endpoint: string, errorType: string, currency: string,
    requestCount: int, successCount: int, failureCount: int,
    promptTokens: int, completionTokens: int, cachedTokens: int, totalTokens: int,
    estimatedCost: real,
    latencyCount: int, latencyTotal: int, latencyMax: Option<int>,
    upstreamLatencyCount: int, upstreamLatencyTotal: int)

  // ----- Accumulators -----

  datatype Metrics = Metrics(
    requests: int, successes: int, failures: int,
    promptTokens: int, completionTokens: int, cachedTokens: int, totalTokens: int,
    cost: real,
    latencyCount: int, latencyTotal: int, latencyMax: nat,
    upstreamLatencyCount: int, upstreamLatencyTotal: int)

  const ZERO := Metrics(0, 0, 0, 0, 0, 0, 0, 0.0, 0, 0, 0, 0, 0)

  function Max(a: nat, b: nat): nat {
    if b > a then b else a
  }

  /** `addMetrics`: counters and cost add up, the maximum latency is the larger one. */
  function Plus(a: Metrics, b: Metrics): Metrics {
    Metrics(a.requests + b.requests, a.successes + b.successes, a.failures + b.failures,
            a.promptTokens + b.promptTokens, a.completionTokens + b.completionTokens,
            a.cachedTokens + b.cachedTokens, a.totalTokens + b.totalTokens,
            a.cost + b.cost,
            a.latencyCount + b.latencyCount, a.latencyTotal + b.latencyTotal, Max(a.latencyMax, b.latencyMax),
            a.upstreamLatencyCount + b.upstreamLatencyCount, a.upstreamLatencyTotal + b.upstreamLatencyTotal)
  }

  /** The metrics of one row; an absent or negative maximum latency counts as zero. */
  function OfRow(r: Row): Metrics {
    Metrics(r.requestCount, r.successCount, r.failureCount,
            r.promptTokens, r.completionTokens, r.cachedTokens, r.totalTokens,
            r.estimatedCost,
            r.latencyCount, r.latencyTotal,
            if r.latencyMax.Some? && r.latencyMax.value > 0 then r.latencyMax.value else 0,
            r.upstreamLatencyCount, r.upstreamLatencyTotal)
  }

  class Accumulator {
    var m: Metrics

    constructor ()
      ensures m == ZERO
    {
      m := ZERO;
    }

    method Add(r: Row)
      modifies this
      ensures m == Plus(old(m), OfRow(r))
    {
      m := m.(requests := m.requests + r.requestCount,
              successes := m.successes + r.successCount,
              failures := m.failures + r.failureCount,
              promptTokens := m.promptTokens + r.promptTokens,
              completionTokens := m.completionTokens + r.completionTokens,
              cachedTokens := m.cachedTokens + r.cachedTokens,
              totalTokens := m.totalTokens + r.totalTokens,
              cost := m.cost + r.estimatedCost,
              latencyCount := m.latencyCount + r.latencyCount,
              latencyTotal := m.latencyTotal + r.latencyTotal);
      if r.latencyMax.Some? && r.latencyMax.value > m.latencyMax {
        m := m.(latencyMax := r.latencyMax.value);
      }
      m := m.(upstreamLatencyCount := m.upstreamLatencyCount + r.upstreamLatencyCount,
              upstreamLatencyTotal := m.upstreamLatencyTotal + r.upstreamLatencyTotal);
    }
  }

  lemma PlusIsCommutativeMonoid(a: Metrics, b: Metrics, c: Metrics)
    ensures Plus(a, b) == Plus(b, a)
    ensures Plus(Plus(a, b), c) == Plus(a, Plus(b, c))
    ensures Plus(a, ZERO) == a == Plus(ZERO, a)
  {
  }

  lemma PlusZero(a: Metrics)
    ensures Plus(a, ZERO) == a
  {
  }

  /** The accumulators as a monoid, for the laws of sums. */
  const USAGE: Monoid<Metrics> := Monoid(ZERO, Plus)

  lemma UsageIsLawful()
    ensures Lawful(USAGE)
  {
    forall a: Metrics, b: Metrics, c: Metrics ensures Laws(USAGE, a, b, c) {
      PlusIsCommutativeMonoid(a, b, c);
    }
  }

  /** The metrics of the rows that meet a condition. */
  function UsageWhere(rows: seq<Row>, p: Row -> bool): Metrics {
    SumWhere(rows, p, OfRow, USAGE)
  }

  /** Metrics, field by field: nothing for no rows, and each row adds its own counts. */
  lemma UsageGrows(rows: seq<Row>, r: Row)
    ensures SumBy([], OfRow, USAGE) == Metrics(0, 0, 0, 0, 0, 0, 0, 0.0, 0, 0, 0, 0, 0)
    ensures var m, m' := SumBy(rows, OfRow, USAGE), SumBy(rows + [r], OfRow, USAGE);
            && m'.requests == m.requests + r.requestCount
            && m'.successes == m.successes + r.successCount && m'.failures == m.failures + r.failureCount
            && m'.promptTokens == m.promptTokens + r.promptTokens
            && m'.completionTokens == m.completionTokens + r.completionTokens
            && m'.cachedTokens == m.cachedTokens + r.cachedTokens
            && m'.totalTokens == m.totalTokens + r.totalTokens
            && m'.cost == m.cost + r.estimatedCost
            && m'.latencyCount == m.latencyCount + r.latencyCount
            && m'.latencyTotal == m.latencyTotal + r.latencyTotal
            && m'.upstreamLatencyCount == m.upstreamLatencyCount + r.upstreamLatencyCount
            && m'.upstreamLatencyTotal == m.upstreamLatencyTotal + r.upstreamLatencyTotal
            && m'.latencyMax == if r.latencyMax.Some? && r.latencyMax.value > m.latencyMax then r.latencyMax.value
                                else m.latencyMax
  {
    SumSnoc(rows, r, OfRow, USAGE);
  }

  /** The maximum latency is at least that of every row, and zero or that of some row. */
  lemma {:induction false} LatencyIsMaximal(rows: seq<Row>)
    ensures var most := SumBy(rows, OfRow, USAGE).latencyMax;
            && (forall r :: r in rows && r.latencyMax.Some? ==> r.latencyMax.value <= most)
            && (most == 0 || exists r :: r in rows && r.latencyMax == Some(most))
  {
    if rows != [] {
      var init, last := rows[..|rows| - 1], rows[|rows| - 1];
      assert rows == init + [last] && last in rows;
      assert forall r :: r in init ==> r in rows;
      LatencyIsMaximal(init);
      UsageGrows(init, last);
    }
  }

  /** The part of an accumulator that series and breakdowns show as it is. */
  function Visible(m: Metrics): Metrics {
    m.(latencyCount := 0, latencyTotal := 0, upstreamLatencyCount := 0, upstreamLatencyTotal := 0)
  }

  lemma VisibleAdds(a: Metrics, b: Metrics)
    ensures Visible(Plus(a, b)) == Plus(Visible(a), Visible(b))
  {
  }

  function VisibleOf<T>(f: T -> Metrics): T -> Metrics {
    (x: T) => Visible(f(x))
  }

  lemma {:induction false} SumOfVisible<T>(s: seq<T>, f: T -> Metrics)
    ensures SumBy(s, VisibleOf(f), USAGE) == Visible(SumBy(s, f, USAGE))
  {
    if s != [] {
      var init, last := s[..|s| - 1], s[|s| - 1];
      SumOfVisible(init, f);
      VisibleAdds(SumBy(init, f, USAGE), f(last));
    }
  }

  // ----- Dimensions -----

  datatype Ref = Ref(key: string, id: Option<string>, name: string)

  function NormalizeSummaryValue(value: string): string {
    var v := TrimSpace(value);
    if v == "" || v == NONE then "" else v
  }

  function FirstNonEmpty(a: string, b: string): string {
    if a != "" then a else b
  }

  function OrUnknown(value: string): string {
    FirstNonEmpty(value, UNKNOWN)
  }

  function IdText(id: Option<string>): Option<string> {
    if id.None? || id.value == NIL then None else id
  }

  function SiteDimension(r: Row): Ref {
    var name := OrUnknown(FirstNonEmpty(NormalizeSummaryValue(r.siteName), NormalizeSummaryValue(r.siteSlug)));
    match IdText(r.siteId)
    case Some(id) => Ref(id, Some(id), name)
    case None => Ref(OrUnknown(NormalizeSummaryValue(r.siteKey)), None, name)
  }

  function ModelDimension(r: Row): Ref {
    var key := OrUnknown(NormalizeSummaryValue(r.modelKey));
    Ref(key, IdText(r.modelId), key)
  }

  function SiteModelDimension(r: Row): Ref {
    var name := OrUnknown(NormalizeSummaryValue(r.upstreamModelName));
    match IdText(r.siteModelId)
    case Some(id) => Ref(OrUnknown(id), Some(id), name)
    case None => Ref(OrUnknown(NormalizeSummaryValue(r.siteModelKey)), None, name)
  }

  /** `names` holds the current names of the stored API keys. */
  function ApiKeyDimension(names: map<string, string>, r: Row): Ref {
    match IdText(r.apiKeyId)
    case None => Ref(UNKNOWN, None, UNKNOWN)
    case Some(id) =>
      var own := NormalizeSummaryValue(r.apiKeyName);
      var name := if id in names && TrimSpace(names[id]) != "" then TrimSpace(names[id]) else own;
      Ref(id, Some(id), OrUnknown(name))
  }

  function EndpointDimension(r: Row): Ref {
    var key := OrUnknown(NormalizeSummaryValue(r.endpoint));
    Ref(key, None, key)
  }

  function ErrorTypeDimension(r: Row): Ref {
    var key := OrUnknown(NormalizeSummaryValue(r.errorType));
    Ref(key, None, key)
  }

  /** The summary value counts unless it is blank or "none". */
  predicate Says(value: string) {
    TrimSpace(value) != "" && TrimSpace(value) != "none"
  }

  /** How the dimensions of a row are read: an identifier other than the zero one is the key; else
      the trimmed text, or "unknown" when it says nothing. */
  lemma SiteIsRead(r: Row)
    ensures var d := SiteDimension(r);
            var hasId := r.siteId.Some? && r.siteId.value != "00000000-0000-0000-0000-000000000000";
            && (hasId ==> d.key == r.siteId.value && d.id == r.siteId)
            && (!hasId ==> d.id == None && d.key == if Says(r.siteKey) then TrimSpace(r.siteKey) else "unknown")
            && d.name == (if Says(r.siteName) then TrimSpace(r.siteName)
                          else if Says(r.siteSlug) then TrimSpace(r.siteSlug) else "unknown")
  {
  }

  lemma ModelIsRead(r: Row)
    ensures var d := ModelDimension(r);
            && d.key == d.name == (if Says(r.modelKey) then TrimSpace(r.modelKey) else "unknown")
            && (d.id.Some? ==> d.id == r.modelId)
            && (r.modelId.Some? && r.modelId.value != "00000000-0000-0000-0000-000000000000" ==> d.id == r.modelId)
  {
  }

  lemma SiteModelIsRead(r: Row)
    ensures var d, id := SiteModelDimension(r), r.siteModelId;
            && (id.Some? && id.value != "00000000-0000-0000-0000-000000000000" ==>
                  d.id == id && d.key == if id.value == "" then "unknown" else id.value)
            && (id.None? || id.value == "00000000-0000-0000-0000-000000000000" ==>
                  d.id == None && d.key == if Says(r.siteModelKey) then TrimSpace(r.siteModelKey) else "unknown")
            && d.name == if Says(r.upstreamModelName) then TrimSpace(r.upstreamModelName) else "unknown"
  {
  }

  /** An API key is named by its stored name, else by the name the row recorded. */
  lemma ApiKeyIsRead(names: map<string, string>, r: Row)
    ensures var d, id := ApiKeyDimension(names, r), r.apiKeyId;
            && (id.None? || id.value == "00000000-0000-0000-0000-000000000000" ==> d == Ref("unknown", None, "unknown"))
            && (id.Some? && id.value != "00000000-0000-0000-0000-000000000000" ==>
                  && d.key == id.value && d.id == id
                  && d.name == (if id.value in names && TrimSpace(names[id.value]) != "" then TrimSpace(names[id.value])
                                else if Says(r.apiKeyName) then TrimSpace(r.apiKeyName) else "unknown"))
  {
  }

  lemma EndpointAndErrorAreRead(r: Row)
    ensures var e := if Says(r.endpoint) then TrimSpace(r.endpoint) else "unknown";
            EndpointDimension(r) == Ref(e, None, e)
    ensures var t := if Says(r.errorType) then TrimSpace(r.errorType) else "unknown";
            ErrorTypeDimension(r) == Ref(t, None, t)
  {
  }

  // ----- Ranking -----

  /** What reports rank by: cost, then requests (both larger first), then name. */
  datatype Rank = Rank(cost: real, requests: int, name: string)

  function Outranks(a: Rank, b: Rank): bool {
    if a.cost != b.cost then a.cost > b.cost
    else if a.requests != b.requests then a.requests > b.requests
    else Less(a.name, b.name)
  }

  lemma OutranksIsWeak(a: Rank, b: Rank, c: Rank)
    ensures !Outranks(a, a)
    ensures Outranks(a, b) && Outranks(b, c) ==> Outranks(a, c)
    ensures !Outranks(a, b) && !Outranks(b, c) ==> !Outranks(a, c)
  {
    LessIrreflexive(a.name);
    LessIsWeak(a.name, b.name, c.name);
  }

  function ByRank<T>(rank: T -> Rank): (T, T) -> bool {
    (a: T, b: T) => Outranks(rank(a), rank(b))
  }

  lemma RankingIsStrictWeak<T(!new)>(rank: T -> Rank)
    ensures StrictWeak(ByRank(rank))
  {
    forall a: T, b: T, c: T
      ensures !Outranks(rank(a), rank(a))
      ensures Outranks(rank(a), rank(b)) && Outranks(rank(b), rank(c)) ==> Outranks(rank(a), rank(c))
      ensures !Outranks(rank(a), rank(b)) && !Outranks(rank(b), rank(c)) ==> !Outranks(rank(a), rank(c))
    {
      OutranksIsWeak(rank(a), rank(b), rank(c));
    }
  }

  /** What it takes not to be outranked: at least the cost, on equal cost at least the requests, on
      equal requests no later name. */
  lemma NotOutranked(a: Rank, b: Rank)
    ensures !Outranks(b, a) <==>
            || a.cost > b.cost
            || (a.cost == b.cost && a.requests > b.requests)
            || (a.cost == b.cost && a.requests == b.requests && !Less(b.name, a.name))
  {
  }
}
