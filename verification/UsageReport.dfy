/** The usage report as a whole: the display currency is chosen, rows are filtered by it, and
    totals, breakdowns and series are built from the same rows. */
module UsageReport {
  import opened Common
  import opened Sorting
  import opened StringSort
  import opened Summation
  import opened Grouping
  import opened Regrouping
  import opened UsageMetrics
  import opened UsageFacts
  import opened UsageTotals
  import opened UsageSeries
  import opened UsageBreakdowns
  import opened UsageMatrix

  // ----- Currencies -----

  function CurrencyDimension(c: Context): Row -> Ref {
    (r: Row) => Ref(NormalizeCurrency(c, r.currency), None, NormalizeCurrency(c, r.currency))
  }

  /** The currencies of the rows, sorted, and the cost in each. */
  method CurrencyOverview(c: Context, rows: seq<Row>) returns (available: seq<string>, costs: map<string, real>)
    ensures costs == Costs(CurrencyDimension(c), rows)
    ensures StrictlyIncreasing(available) && forall currency :: currency in available <==> currency in costs
  {
    costs := map[];
    for i := 0 to |rows|
      invariant costs == Costs(CurrencyDimension(c), rows[..i])
    {
      assert rows[..i + 1][..i] == rows[..i];
      costs := AddCost(CurrencyDimension(c), costs, rows[i]);
    }
    assert rows[..|rows|] == rows;
    available := Walk(costs);
    SortedDistinct(available);
    available := StableSort(available, Less);
  }

  /** A currency is listed exactly when a row has it, with the cost of all such rows. */
  lemma CurrencyCosts(c: Context, rows: seq<Row>, currency: string)
    ensures currency in Costs(CurrencyDimension(c), rows) <==> exists r :: r in rows && InCurrency(c, currency)(r)
    ensures currency in Costs(CurrencyDimension(c), rows) ==>
              Costs(CurrencyDimension(c), rows)[currency] == UsageWhere(rows, InCurrency(c, currency)).cost
  {
    var dim := CurrencyDimension(c);
    CostsAreAggregated(dim, rows, currency);
    AggregateKeys(dim, rows, currency);
    AggregateHolds(dim, rows, currency);
    forall r ensures KeyBy(dim)(r) == currency <==> InCurrency(c, currency)(r) {}
    SumWhereCongruent(rows, KeyIs(KeyBy(dim), currency, ALL), InCurrency(c, currency), OfRow, USAGE);
  }

  function CostAt(costs: map<string, real>, currency: string): real {
    if currency in costs then costs[currency] else 0.0
  }

  function Requested(c: Context, requested: string): string {
    var value := TrimSpace(requested);
    if value == "" then "" else c.upper(value)
  }

  /** The currency at `i` costs the most, and more than all before it; nameless ones do not count. */
  ghost predicate Dearest(available: seq<string>, costs: map<string, real>, i: int) {
    && 0 <= i < |available| && available[i] != ""
    && (forall j :: 0 <= j < |available| && available[j] != "" ==>
          CostAt(costs, available[j]) <= CostAt(costs, available[i]))
    && (forall j :: 0 <= j < i && available[j] != "" ==> CostAt(costs, available[j]) < CostAt(costs, available[i]))
  }

  /** The requested currency if available, else the first of the dearest, else the default. */
  ghost predicate Displays(c: Context, requested: string, available: seq<string>, costs: map<string, real>,
                           display: string)
  {
    var value := Requested(c, requested);
    if value != "" && value in available then display == value
    else if exists currency :: currency in available && currency != "" then
      exists i :: Dearest(available, costs, i) && display == available[i]
    else display == DEFAULT_CURRENCY
  }

  /** The first dearest among the currencies seen so far, if any. */
  ghost predicate DearestSoFar(available: seq<string>, costs: map<string, real>, n: nat, display: string)
    requires n <= |available|
  {
    if display == "" then forall j :: 0 <= j < n ==> available[j] == ""
    else exists i :: Dearest(available[..n], costs, i) && available[i] == display
  }

  lemma DearestNext(available: seq<string>, costs: map<string, real>, n: nat, display: string)
    requires n < |available| && DearestSoFar(available, costs, n, display) && (n > 0 ==> available[n] != "")
    ensures DearestSoFar(available, costs, n + 1,
              if display == "" || CostAt(costs, available[n]) > CostAt(costs, display) then available[n] else display)
  {
    var longer := available[..n + 1];
    if display == "" {
      assert available[n] != "" ==> Dearest(longer, costs, n);
    } else {
      var i :| Dearest(available[..n], costs, i) && available[i] == display;
      if CostAt(costs, available[n]) > CostAt(costs, display) {
        assert Dearest(longer, costs, n);
      } else {
        assert Dearest(longer, costs, i);
      }
    }
  }

  /** Only the first name may be empty, as in every sorted list. */
  predicate EmptyFirst(available: seq<string>) {
    forall j :: 0 < j < |available| ==> available[j] != ""
  }

  method PickDisplayCurrency(c: Context, requested: string, available: seq<string>, costs: map<string, real>)
    returns (display: string)
    ensures EmptyFirst(available) ==> Displays(c, requested, available, costs, display)
  {
    var value := Requested(c, requested);
    if value != "" {
      for i := 0 to |available|
        invariant forall j :: 0 <= j < i ==> available[j] != value
      {
        if available[i] == value { return value; }
      }
    }
    display := Dear(available, costs);
    if display == "" { display := DEFAULT_CURRENCY; }
  }

  /** The search for the dearest currency; empty if there is none. */
  method Dear(available: seq<string>, costs: map<string, real>) returns (display: string)
    ensures EmptyFirst(available) ==>
              if display == "" then forall currency :: currency in available ==> currency == ""
              else exists i :: Dearest(available, costs, i) && display == available[i] && available[i] in available
  {
    display := "";
    for i := 0 to |available|
      invariant EmptyFirst(available) ==> DearestSoFar(available, costs, i, display)
    {
      if EmptyFirst(available) { DearestNext(available, costs, i, display); }
      if display == "" || CostAt(costs, available[i]) > CostAt(costs, display) {
        display := available[i];
      }
    }
    assert available[..|available|] == available;
  }

  /** In a sorted list, ties go to the smallest name. */
  lemma TiesGoToTheSmallestName(available: seq<string>, costs: map<string, real>, i: int, other: string)
    requires StrictlyIncreasing(available) && Dearest(available, costs, i)
    requires other in available && other != "" && CostAt(costs, other) == CostAt(costs, available[i])
    ensures other == available[i] || Less(available[i], other)
  {
    var j :| 0 <= j < |available| && available[j] == other;
  }

  // ----- The report -----

  datatype Report = Report(
    currency: string, available: seq<string>, totals: Totals, breakdowns: Breakdowns, series: seq<Series>)

  lemma SortedIsEmptyFirst(available: seq<string>)
    requires StrictlyIncreasing(available)
    ensures EmptyFirst(available)
  {
    forall j | 0 < j < |available| ensures available[j] != "" { assert Less(available[0], available[j]); }
  }

  ghost predicate IsAvailable(c: Context, rows: seq<Row>, available: seq<string>) {
    && StrictlyIncreasing(available)
    && forall currency :: currency in available <==> exists row :: row in rows && InCurrency(c, currency)(row)
  }

  lemma CostsAreAvailable(c: Context, rows: seq<Row>, available: seq<string>)
    requires StrictlyIncreasing(available)
    requires forall currency :: currency in available <==> currency in Costs(CurrencyDimension(c), rows)
    ensures IsAvailable(c, rows, available)
  {
    forall currency ensures currency in available <==> exists row :: row in rows && InCurrency(c, currency)(row) {
      CurrencyCosts(c, rows, currency);
    }
  }

  /** The currencies to offer and the one to show. */
  method ChooseCurrency(c: Context, rows: seq<Row>, requested: string)
    returns (available: seq<string>, costs: map<string, real>, display: string)
    ensures IsAvailable(c, rows, available) && costs == Costs(CurrencyDimension(c), rows)
    ensures Displays(c, requested, available, costs, display)
  {
    available, costs := CurrencyOverview(c, rows);
    CostsAreAvailable(c, rows, available);
    SortedIsEmptyFirst(available);
    display := PickDisplayCurrency(c, requested, available, costs);
  }

  /** Breakdowns and series of the shown rows. */
  ghost predicate ShowsRows(c: Context, shown: seq<Row>, groupBy: GroupBy, b: Breakdowns, series: seq<Series>) {
    && BreakdownsOf(shown, c.names, b) && SeriesFor(shown, groupBy, c.names, c.format, series)
    && ShowsAllRows(shown, c.format, series) && ShowsTheirDates(shown, c.format, series)
  }

  method ShowRows(c: Context, shown: seq<Row>, groupBy: GroupBy) returns (b: Breakdowns, series: seq<Series>)
    ensures ShowsRows(c, shown, groupBy, b, series)
  {
    b := BuildBreakdowns(shown, c.names);
    series := ReportSeries(shown, groupBy, c.names, c.format);
  }

  /** Currency choice, totals, breakdowns and series all speak of the rows of the one display
      currency; the costs by currency speak of all rows. */
  ghost predicate IsReport(c: Context, rows: seq<Row>, previousRows: seq<Row>, requested: string, groupBy: GroupBy,
                           period: Period, r: Report)
  {
    && IsAvailable(c, rows, r.available)
    && Displays(c, requested, r.available, Costs(CurrencyDimension(c), rows), r.currency)
    && r.totals == TotalsOf(UsageWhere(rows, InCurrency(c, r.currency)),
                            UsageWhere(previousRows, InCurrency(c, r.currency)),
                            Costs(CurrencyDimension(c), rows), period)
    && ShowsRows(c, Filter(rows, InCurrency(c, r.currency)), groupBy, r.breakdowns, r.series)
  }

  method Usage(c: Context, rows: seq<Row>, previousRows: seq<Row>, requested: string, groupBy: GroupBy, period: Period)
    returns (r: Report)
    ensures IsReport(c, rows, previousRows, requested, groupBy, period, r)
  {
    var available, costs, currency := ChooseCurrency(c, rows, requested);
    var shown := FilterRowsByCurrency(c, rows, currency);
    var before := FilterRowsByCurrency(c, previousRows, currency);
    var totals := BuildTotals(shown, before, costs, period);
    var breakdowns, series := ShowRows(c, shown, groupBy);
    r := Report(currency, available, totals, breakdowns, series);
  }

  /** The totals of the report are those recomputed from the dataset of the same rows. */
  lemma DatasetReproducesReport(c: Context, day: int -> string, rows: seq<Row>, previousRows: seq<Row>,
                                requested: string, groupBy: GroupBy, period: Period, r: Report, d: Dataset)
    requires IsReport(c, rows, previousRows, requested, groupBy, period, r)
    requires IsDataset(c, day, rows, previousRows, d) && d.Loaded?
    requires NoCollision(c, rows) && NoCollision(ByDay(c, day), previousRows)
    ensures r.totals == TotalsOf(FactsIn(d.current, r.currency), FactsIn(d.previous, r.currency),
                                 r.totals.costByCurrency, period)
  {
    DatasetReproducesTotals(c, day, rows, previousRows, d.current, d.previous, r.currency,
                            Costs(CurrencyDimension(c), rows), period);
  }

  /** In the report, too, no folded member outranks a kept one. */
  lemma ReportedSeriesAreRanked(rows: seq<Row>, groupBy: GroupBy, names: map<string, string>, format: int -> string,
                                series: seq<Series>) returns (ranking: seq<Member>)
    requires SeriesFor(rows, groupBy, names, format, series) && groupBy != NoGroup
    ensures SeriesOf(ranking, series)
    ensures forall i, j :: 0 <= i < TOP_N <= j < |ranking| ==>
              !Outranks(MemberRank(ranking[j]), MemberRank(ranking[i]))
  {
    var plan := Plan(SeriesDimension(groupBy, names), format);
    ranking :| Ranking(plan, rows, ranking) && SeriesOf(ranking, series);
    forall i, j | 0 <= i < TOP_N <= j < |ranking| ensures !Outranks(MemberRank(ranking[j]), MemberRank(ranking[i])) {
      KeptOutrankFolded(plan, rows, ranking, i, j);
    }
  }

  /** The report is consistent: its series, summed over all dates, show what its totals show. */
  lemma SeriesAreTheTotals(c: Context, rows: seq<Row>, previous: Metrics, costs: map<string, real>, period: Period,
                           currency: string, series: seq<Series>, dates: seq<string>)
    requires ShowsAllRows(Filter(rows, InCurrency(c, currency)), c.format, series) && Distinct(dates)
    requires forall r :: r in rows ==> c.format(r.bucketStart) in dates
    ensures var t, shown := TotalsOf(UsageWhere(rows, InCurrency(c, currency)), previous, costs, period),
                            SumBy(dates, ShownTotal(series), USAGE);
            && t.requests == shown.requests && t.successes == shown.successes && t.failures == shown.failures
            && t.promptTokens == shown.promptTokens && t.completionTokens == shown.completionTokens
            && t.cachedTokens == shown.cachedTokens && t.totalTokens == shown.totalTokens
            && t.cost == shown.cost && t.maxLatency == shown.latencyMax
  {
    FilterMembers(rows, InCurrency(c, currency));
    SeriesAddUpToTotals(Filter(rows, InCurrency(c, currency)), c.format, series, dates);
  }

  // ----- What the report shows, in the rows' terms -----

  /** Unless the requested currency is available, the shown one has the largest cost of all, and
      among equals the smallest name. */
  lemma DisplayIsDearest(c: Context, rows: seq<Row>, requested: string, available: seq<string>, display: string,
                         other: string)
    requires IsAvailable(c, rows, available)
    requires Displays(c, requested, available, Costs(CurrencyDimension(c), rows), display)
    requires Requested(c, requested) !in available && other in available && other != ""
    ensures display in available && display != ""
    ensures var shown := UsageWhere(rows, InCurrency(c, display)).cost;
            var cost := UsageWhere(rows, InCurrency(c, other)).cost;
            shown > cost || (shown == cost && !Less(other, display))
  {
    var costs := Costs(CurrencyDimension(c), rows);
    var i :| Dearest(available, costs, i) && display == available[i];
    DearestBeats(available, costs, i, other);
    CurrencyCosts(c, rows, display);
    CurrencyCosts(c, rows, other);
  }

  lemma DearestBeats(available: seq<string>, costs: map<string, real>, i: int, other: string)
    requires StrictlyIncreasing(available) && Dearest(available, costs, i) && other in available && other != ""
    ensures var shown, cost := CostAt(costs, available[i]), CostAt(costs, other);
            shown > cost || (shown == cost && !Less(other, available[i]))
  {
    var j :| 0 <= j < |available| && available[j] == other;
    LessIrreflexive(other);
    if j > i && Less(other, available[i]) { LessTransitive(other, available[i], other); }
  }

  /** A series is named by the first known name of its member's rows. */
  lemma {:induction false} MembersNameLikeAggregates(plan: Plan, rows: seq<Row>, k: string)
    ensures k in Members(plan, rows) <==> k in Aggregates(plan.dimension, rows)
    ensures k in Members(plan, rows) ==> Members(plan, rows)[k].ref.name == Aggregates(plan.dimension, rows)[k].ref.name
  {
    if rows != [] {
      MembersNameLikeAggregates(plan, rows[..|rows| - 1], k);
    }
  }

  lemma MemberIsNamed(plan: Plan, rows: seq<Row>, k: string)
    requires k in Members(plan, rows)
    ensures Knows(plan.dimension, rows, k, NameIn, NameIn(Members(plan, rows)[k].ref))
  {
    MembersNameLikeAggregates(plan, rows, k);
    AggregateIsNamed(plan.dimension, rows, k);
    assert NameIn(Members(plan, rows)[k].ref) == DetailHeld(plan.dimension, rows, k, NameIn);
  }

  /** And identified by the first of them. */
  lemma {:induction false} MemberIsIdentified(plan: Plan, rows: seq<Row>, k: string)
    requires k in Members(plan, rows)
    ensures exists i :: FirstWith(rows, KeyOf(plan), k, i)
                     && Members(plan, rows)[k].ref.id == plan.dimension(rows[i]).id
  {
    var init, last := rows[..|rows| - 1], rows[|rows| - 1];
    assert rows == init + [last];
    if k in Members(plan, init) {
      MemberIsIdentified(plan, init, k);
      var i :| FirstWith(init, KeyOf(plan), k, i) && Members(plan, init)[k].ref.id == plan.dimension(init[i]).id;
      assert FirstWith(rows, KeyOf(plan), k, i);
    } else {
      MemberKeys(plan, init, k);
      assert forall j :: 0 <= j < |init| ==> init[j] in init;
      assert FirstWith(rows, KeyOf(plan), k, |init|);
    }
  }

  /** In the report, too, kept members have outspent folded ones. */
  lemma ReportedSeriesOutspend(rows: seq<Row>, groupBy: GroupBy, names: map<string, string>, format: int -> string,
                               series: seq<Series>) returns (ranking: seq<Member>)
    requires SeriesFor(rows, groupBy, names, format, series) && groupBy != NoGroup
    ensures SeriesOf(ranking, series)
    ensures var plan := Plan(SeriesDimension(groupBy, names), format);
            forall i, j :: 0 <= i < 9 <= j < |ranking| ==>
              RowsOf(plan, rows, ranking[i]).cost >= RowsOf(plan, rows, ranking[j]).cost
  {
    var plan := Plan(SeriesDimension(groupBy, names), format);
    ranking :| Ranking(plan, rows, ranking) && SeriesOf(ranking, series);
    forall i, j | 0 <= i < 9 <= j < |ranking|
      ensures RowsOf(plan, rows, ranking[i]).cost >= RowsOf(plan, rows, ranking[j]).cost
    {
      KeptOutspendFolded(plan, rows, ranking, i, j);
    }
  }

  /** A requested currency is shown whenever some row has it, however it is spelled. */
  lemma RequestedIsShown(c: Context, rows: seq<Row>, requested: string, available: seq<string>, display: string)
    requires IsAvailable(c, rows, available)
    requires Displays(c, requested, available, Costs(CurrencyDimension(c), rows), display)
    requires TrimSpace(requested) != "" && c.upper(TrimSpace(requested)) != ""
    requires exists r :: r in rows && NormalizeCurrency(c, r.currency) == c.upper(TrimSpace(requested))
    ensures display == c.upper(TrimSpace(requested))
  {
    var value := c.upper(TrimSpace(requested));
    var r :| r in rows && NormalizeCurrency(c, r.currency) == value;
    assert InCurrency(c, value)(r);
  }

  /** Without rows of a named currency the default is shown. */
  lemma DefaultIsShown(c: Context, requested: string, costs: map<string, real>, display: string)
    requires Displays(c, requested, [], costs, display)
    ensures display == "USD"
  {
  }
}
