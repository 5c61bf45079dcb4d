/** Time series per dimension member: the nine highest-ranked members keep their own series, the
    rest are folded into "other". */
module UsageSeries {
  import opened Common
  import opened Sorting
  import opened StringSort
  import opened Summation
  import opened Grouping
  import opened UsageMetrics
  import opened UsageFacts
  import opened UsageTotals

  const TOP_N: nat := 9

  type Points = map<string, Metrics>

  datatype Member = Member(ref: Ref, cost: real, requests: int, points: Points)

  /** What a series is built with: the grouping dimension and the date format. */
  datatype Plan = Plan(dimension: Row -> Ref, format: int -> string)

  function DateOf(plan: Plan): Row -> string {
    (r: Row) => plan.format(r.bucketStart)
  }

  function KeyOf(plan: Plan): Row -> string {
    (r: Row) => plan.dimension(r).key
  }

  function At(points: Points, date: string): Metrics {
    if date in points then points[date] else ZERO
  }

  function AddPoint(points: Points, date: string, r: Row): Points {
    points[date := Plus(At(points, date), OfRow(r))]
  }

  function AddMember(plan: Plan, m: map<string, Member>, r: Row): map<string, Member> {
    var ref := plan.dimension(r);
    var prior := if ref.key in m then m[ref.key] else Member(ref, 0.0, 0, map[]);
    var named := if prior.ref.name == UNKNOWN && ref.name != UNKNOWN then prior.ref.(name := ref.name) else prior.ref;
    m[ref.key := Member(named, prior.cost + r.estimatedCost, prior.requests + r.requestCount,
                        AddPoint(prior.points, DateOf(plan)(r), r))]
  }

  function Members(plan: Plan, rows: seq<Row>): map<string, Member> {
    if rows == [] then map[] else AddMember(plan, Members(plan, rows[..|rows| - 1]), rows[|rows| - 1])
  }

  function MemberRank(m: Member): Rank {
    Rank(m.cost, m.requests, m.ref.name)
  }

  // ----- What members hold -----

  function OnDate(plan: Plan, date: string): Row -> bool {
    (r: Row) => DateOf(plan)(r) == date
  }

  lemma {:induction false} MemberKeys(plan: Plan, rows: seq<Row>, k: string)
    ensures k in Members(plan, rows) <==> exists r :: r in rows && KeyOf(plan)(r) == k
    ensures k in Members(plan, rows) ==> Members(plan, rows)[k].ref.key == k
  {
    if rows != [] {
      var init, last := rows[..|rows| - 1], rows[|rows| - 1];
      MemberKeys(plan, init, k);
      assert rows == init + [last];
      assert forall r :: r in init ==> r in rows;
      assert last in rows;
    }
  }

  function PointOf(plan: Plan, rows: seq<Row>, k: string, date: string): Metrics {
    if k in Members(plan, rows) then At(Members(plan, rows)[k].points, date) else ZERO
  }

  lemma PointStep(plan: Plan, init: seq<Row>, last: Row, k: string, date: string)
    ensures PointOf(plan, init + [last], k, date) ==
            if KeyIs(KeyOf(plan), k, OnDate(plan, date))(last)
            then Plus(PointOf(plan, init, k, date), OfRow(last)) else PointOf(plan, init, k, date)
  {
    assert (init + [last])[..|init|] == init;
  }

  /** A member's point at a date is the sum of the member's rows of that date. */
  lemma {:induction false} MemberPoint(plan: Plan, rows: seq<Row>, k: string, date: string)
    ensures PointOf(plan, rows, k, date) == UsageWhere(rows, KeyIs(KeyOf(plan), k, OnDate(plan, date)))
  {
    if rows != [] {
      var init, last := rows[..|rows| - 1], rows[|rows| - 1];
      assert rows == init + [last];
      MemberPoint(plan, init, k, date);
      PointStep(plan, init, last, k, date);
      SumWhereSnoc(init, last, KeyIs(KeyOf(plan), k, OnDate(plan, date)), OfRow, USAGE);
    }
  }

  /** A member has points exactly at the dates of its rows. */
  lemma {:induction false} MemberDates(plan: Plan, rows: seq<Row>, k: string, date: string)
    ensures k in Members(plan, rows) && date in Members(plan, rows)[k].points <==>
            exists r :: r in rows && KeyOf(plan)(r) == k && DateOf(plan)(r) == date
  {
    if rows != [] {
      var init, last := rows[..|rows| - 1], rows[|rows| - 1];
      MemberDates(plan, init, k, date);
      assert rows == init + [last];
      assert forall r :: r in init ==> r in rows;
      assert last in rows;
    }
  }

  /** Cost and requests, as they add up. */
  datatype Spend = Spend(cost: real, requests: int)

  function AddSpend(a: Spend, b: Spend): Spend {
    Spend(a.cost + b.cost, a.requests + b.requests)
  }

  const SPENDS: Monoid<Spend> := Monoid(Spend(0.0, 0), AddSpend)

  function RowSpend(r: Row): Spend {
    Spend(r.estimatedCost, r.requestCount)
  }

  function SpendIn(m: Metrics): Spend {
    Spend(m.cost, m.requests)
  }

  lemma {:induction false} SpendOfRows(rows: seq<Row>)
    ensures SumBy(rows, RowSpend, SPENDS) == SpendIn(SumBy(rows, OfRow, USAGE))
  {
    if rows != [] {
      SpendOfRows(rows[..|rows| - 1]);
    }
  }

  function SpendOf(plan: Plan, rows: seq<Row>, k: string): Spend {
    if k in Members(plan, rows) then Spend(Members(plan, rows)[k].cost, Members(plan, rows)[k].requests)
    else SPENDS.zero
  }

  lemma SpendStep(plan: Plan, init: seq<Row>, last: Row, k: string)
    ensures SpendOf(plan, init + [last], k) ==
            if KeyIs(KeyOf(plan), k, ALL)(last) then SPENDS.plus(SpendOf(plan, init, k), RowSpend(last))
            else SpendOf(plan, init, k)
  {
    assert (init + [last])[..|init|] == init;
  }

  lemma {:induction false} MemberSpendAddsUp(plan: Plan, rows: seq<Row>, k: string)
    ensures SpendOf(plan, rows, k) == SumWhere(rows, KeyIs(KeyOf(plan), k, ALL), RowSpend, SPENDS)
  {
    if rows != [] {
      var init, last := rows[..|rows| - 1], rows[|rows| - 1];
      assert rows == init + [last];
      MemberSpendAddsUp(plan, init, k);
      SpendStep(plan, init, last, k);
      SumWhereSnoc(init, last, KeyIs(KeyOf(plan), k, ALL), RowSpend, SPENDS);
    }
  }

  /** A member is ranked by the cost and the requests of all its rows. */
  lemma MemberSpend(plan: Plan, rows: seq<Row>, k: string)
    ensures SpendOf(plan, rows, k) == SpendIn(UsageWhere(rows, KeyIs(KeyOf(plan), k, ALL)))
  {
    MemberSpendAddsUp(plan, rows, k);
    SpendOfRows(Filter(rows, KeyIs(KeyOf(plan), k, ALL)));
  }

  // ----- Points as they are shown -----

  datatype Point = Point(
    date: string, requests: int, successes: int, failures: int,
    promptTokens: int, completionTokens: int, cachedTokens: int, totalTokens: int,
    cost: real, averageLatency: real, maxLatency: nat)

  function PointFor(date: string, m: Metrics): Point {
    Point(date, m.requests, m.successes, m.failures, m.promptTokens, m.completionTokens, m.cachedTokens,
          m.totalTokens, m.cost, Average(m.latencyTotal, m.latencyCount), m.latencyMax)
  }

  /** The additive part of a point and its maximum latency, as metrics. */
  function Shown(p: Point): Metrics {
    Metrics(p.requests, p.successes, p.failures, p.promptTokens, p.completionTokens, p.cachedTokens,
            p.totalTokens, p.cost, 0, 0, p.maxLatency, 0, 0)
  }

  function Dated(date: string): Point -> bool {
    (p: Point) => p.date == date
  }

  /** What a list of points shows for a date. */
  function ShownAt(ps: seq<Point>, date: string): Metrics {
    SumWhere(ps, Dated(date), Shown, USAGE)
  }

  function PointList(points: Points, dates: seq<string>): seq<Point>
    requires forall d :: d in dates ==> d in points
  {
    seq(|dates|, i requires 0 <= i < |dates| => assert dates[i] in dates; PointFor(dates[i], points[dates[i]]))
  }

  /** The points of a map, one per date, in increasing order of date. */
  ghost predicate PointsOf(points: Points, ps: seq<Point>) {
    exists dates :: Enumerates(points, dates) && StrictlyIncreasing(dates) && ps == PointList(points, dates)
  }

  method SeriesPoints(points: Points) returns (ps: seq<Point>)
    ensures PointsOf(points, ps)
  {
    var dates := Walk(points);
    SortedDistinct(dates);
    dates := StableSort(dates, Less);
    IncreasingIsDistinct(dates);
    assert Enumerates(points, dates);
    ps := PointList(points, dates);
  }

  lemma IncreasingIsDistinct(dates: seq<string>)
    requires StrictlyIncreasing(dates)
    ensures Distinct(dates)
  {
    forall i, j | 0 <= i < j < |dates| ensures dates[i] != dates[j] { LessIrreflexive(dates[i]); }
  }

  lemma {:induction false} ShownInList(points: Points, dates: seq<string>, date: string)
    requires Distinct(dates) && forall d :: d in dates ==> d in points
    ensures ShownAt(PointList(points, dates), date) == if date in dates then Visible(points[date]) else ZERO
  {
    if dates != [] {
      var init, last := dates[..|dates| - 1], dates[|dates| - 1];
      ShownInList(points, init, date);
      var p := PointFor(last, points[last]);
      assert PointList(points, dates) == PointList(points, init) + [p];
      SumWhereSnoc(PointList(points, init), p, Dated(date), Shown, USAGE);
      assert last !in init;
      UsageIsLawful();
      Unit(USAGE, Shown(p));
    }
  }

  /** A point list shows, at every date, the visible part of the accumulator of that date. */
  lemma ListShowsMap(points: Points, ps: seq<Point>, date: string)
    requires PointsOf(points, ps)
    ensures ShownAt(ps, date) == Visible(At(points, date))
  {
    var dates :| Enumerates(points, dates) && StrictlyIncreasing(dates) && ps == PointList(points, dates);
    ShownInList(points, dates, date);
  }

  // ----- Folding the rest into "other" -----

  function Merged(acc: Points, points: Points): Points {
    map d | d in acc.Keys + points.Keys :: if d in points then Plus(At(acc, d), points[d]) else acc[d]
  }

  function Folded(members: seq<Member>): Points {
    if members == [] then map[] else Merged(Folded(members[..|members| - 1]), members[|members| - 1].points)
  }

  function PointAt(date: string): Member -> Metrics {
    (m: Member) => At(m.points, date)
  }

  lemma MergedAt(acc: Points, points: Points, date: string)
    ensures At(Merged(acc, points), date) == Plus(At(acc, date), At(points, date))
  {
    if date in points {
      assert Merged(acc, points)[date] == Plus(At(acc, date), points[date]);
    } else {
      assert At(Merged(acc, points), date) == At(acc, date);
      PlusZero(At(acc, date));
    }
  }

  lemma {:induction false} FoldedAt(members: seq<Member>, date: string)
    ensures At(Folded(members), date) == SumBy(members, PointAt(date), USAGE)
  {
    if members != [] {
      var init, last := members[..|members| - 1], members[|members| - 1];
      FoldedAt(init, date);
      MergedAt(Folded(init), last.points, date);
    }
  }

  /** Adds one member's points to the accumulators, walking its dates in an arbitrary order. */
  method FoldMember(acc: Points, points: Points) returns (r: Points)
    ensures r == Merged(acc, points)
  {
    r := acc;
    var todo := points.Keys;
    while todo != {}
      invariant todo <= points.Keys
      invariant r == map d | d in acc.Keys + (points.Keys - todo) ::
                       if d in points && d !in todo then Plus(At(acc, d), points[d]) else acc[d]
      decreases todo
    {
      var d :| d in todo;
      var point := if d in r then r[d] else ZERO;
      r := r[d := Plus(point, points[d])];
      todo := todo - {d};
    }
  }

  // ----- The series -----

  const OTHER := "other"
  const OTHER_NAME := "其他"
  const TOTAL := "__total__"
  const TOTAL_NAME := "总计"

  datatype Series = Series(key: string, id: Option<string>, name: string, points: seq<Point>)

  /** All members, best-ranked first. */
  ghost predicate Ranking(plan: Plan, rows: seq<Row>, ranking: seq<Member>) {
    exists ks :: Enumerates(Members(plan, rows), ks)
              && ranking == StableSort(Values(Members(plan, rows), ks), ByRank(MemberRank))
  }

  function KeptCount(n: nat): nat {
    if n > TOP_N then TOP_N else n
  }

  ghost predicate SeriesOf(ranking: seq<Member>, series: seq<Series>) {
    var n := KeptCount(|ranking|);
    && |series| == n + (if |ranking| > TOP_N then 1 else 0)
    && (forall i :: 0 <= i < n ==> ShowsMember(ranking[i], series[i]))
    && (|ranking| > TOP_N ==>
          && series[n].key == OTHER && series[n].id == None && series[n].name == OTHER_NAME
          && PointsOf(Folded(ranking[n..]), series[n].points))
  }

  /** The series of one member. */
  ghost predicate ShowsMember(m: Member, s: Series) {
    s.key == m.ref.key && s.id == m.ref.id && s.name == m.ref.name && PointsOf(m.points, s.points)
  }

  method CollectMembers(plan: Plan, rows: seq<Row>) returns (members: map<string, Member>)
    ensures members == Members(plan, rows)
  {
    members := map[];
    for i := 0 to |rows|
      invariant members == Members(plan, rows[..i])
    {
      assert rows[..i + 1][..i] == rows[..i];
      members := AddMember(plan, members, rows[i]);
    }
    assert rows[..|rows|] == rows;
  }

  method BuildSeries(plan: Plan, rows: seq<Row>) returns (series: seq<Series>)
    ensures exists ranking :: Ranking(plan, rows, ranking) && SeriesOf(ranking, series)
  {
    var members := CollectMembers(plan, rows);
    var ks := Walk(members);
    var ordered := StableSort(Values(members, ks), ByRank(MemberRank));
    assert Ranking(plan, rows, ordered);
    series := ShowRanked(ordered);
  }

  /** The kept members as they are, the others folded. */
  method ShowRanked(ordered: seq<Member>) returns (series: seq<Series>)
    ensures SeriesOf(ordered, series)
  {
    var n := KeptCount(|ordered|);
    series := [];
    for i := 0 to n
      invariant |series| == i
      invariant forall j :: 0 <= j < i ==> ShowsMember(ordered[j], series[j])
    {
      var points := SeriesPoints(ordered[i].points);
      series := series + [Series(ordered[i].ref.key, ordered[i].ref.id, ordered[i].ref.name, points)];
    }
    if |ordered| > TOP_N {
      var other := FoldRest(ordered[n..]);
      var points := SeriesPoints(other);
      series := series + [Series(OTHER, None, OTHER_NAME, points)];
    }
  }

  method FoldRest(rest: seq<Member>) returns (other: Points)
    ensures other == Folded(rest)
  {
    other := map[];
    for i := 0 to |rest|
      invariant other == Folded(rest[..i])
    {
      assert rest[..i + 1][..i] == rest[..i];
      other := FoldMember(other, rest[i].points);
    }
    assert rest[..|rest|] == rest;
  }

  function TotalPoints(plan: Plan, rows: seq<Row>): Points {
    if rows == [] then map[]
    else AddPoint(TotalPoints(plan, rows[..|rows| - 1]), DateOf(plan)(rows[|rows| - 1]), rows[|rows| - 1])
  }

  /** Without grouping there is a single series. */
  method BuildTotalSeries(plan: Plan, rows: seq<Row>) returns (total: Series)
    ensures total.key == TOTAL && total.id == None && total.name == TOTAL_NAME
    ensures PointsOf(TotalPoints(plan, rows), total.points)
  {
    var points: Points := map[];
    for i := 0 to |rows|
      invariant points == TotalPoints(plan, rows[..i])
    {
      assert rows[..i + 1][..i] == rows[..i];
      points := AddPoint(points, DateOf(plan)(rows[i]), rows[i]);
    }
    assert rows[..|rows|] == rows;
    var ps := SeriesPoints(points);
    return Series(TOTAL, None, TOTAL_NAME, ps);
  }

  // ----- Conservation -----

  function ShownOn(date: string): Series -> Metrics {
    (s: Series) => ShownAt(s.points, date)
  }

  lemma {:induction false} TotalPoint(plan: Plan, rows: seq<Row>, date: string)
    ensures At(TotalPoints(plan, rows), date) == UsageWhere(rows, OnDate(plan, date))
  {
    if rows != [] {
      var init, last := rows[..|rows| - 1], rows[|rows| - 1];
      assert rows == init + [last];
      TotalPoint(plan, init, date);
      SumWhereSnoc(init, last, OnDate(plan, date), OfRow, USAGE);
    }
  }

  lemma KeptSeriesShowMembers(ranking: seq<Member>, series: seq<Series>, date: string)
    requires SeriesOf(ranking, series)
    ensures SumBy(series[..KeptCount(|ranking|)], ShownOn(date), USAGE) ==
            SumBy(ranking[..KeptCount(|ranking|)], VisibleOf(PointAt(date)), USAGE)
  {
    var n := KeptCount(|ranking|);
    forall i | 0 <= i < n
      ensures ShownOn(date)(series[i]) == VisibleOf(PointAt(date))(ranking[i])
    {
      assert ShowsMember(ranking[i], series[i]);
      ListShowsMap(ranking[i].points, series[i].points, date);
    }
    SumOfMapped(series[..n], ranking[..n], ShownOn(date), VisibleOf(PointAt(date)), USAGE);
  }

  lemma OtherShowsTheRest(rest: seq<Member>, other: Series, date: string)
    requires PointsOf(Folded(rest), other.points)
    ensures ShownOn(date)(other) == SumBy(rest, VisibleOf(PointAt(date)), USAGE)
  {
    ListShowsMap(Folded(rest), other.points, date);
    FoldedAt(rest, date);
    SumOfVisible(rest, PointAt(date));
  }

  /** Kept series and "other" together show what all members hold. */
  lemma SeriesShowRanking(ranking: seq<Member>, series: seq<Series>, date: string)
    requires SeriesOf(ranking, series)
    ensures SumBy(series, ShownOn(date), USAGE) == SumBy(ranking, VisibleOf(PointAt(date)), USAGE)
  {
    var n := KeptCount(|ranking|);
    KeptSeriesShowMembers(ranking, series, date);
    if |ranking| > TOP_N {
      OtherShowsTheRest(ranking[n..], series[n], date);
      UsageIsLawful();
      SumWithTailFolded(series, ranking, n, ShownOn(date), VisibleOf(PointAt(date)), USAGE);
    } else {
      assert series == series[..n] && ranking == ranking[..n];
    }
  }

  /** All members together hold, at every date, exactly the rows of that date. */
  lemma MembersHoldAllRows(plan: Plan, rows: seq<Row>, ranking: seq<Member>, date: string)
    requires Ranking(plan, rows, ranking)
    ensures SumBy(ranking, PointAt(date), USAGE) == UsageWhere(rows, OnDate(plan, date))
  {
    var m := Members(plan, rows);
    var ks :| Enumerates(m, ks) && ranking == StableSort(Values(m, ks), ByRank(MemberRank));
    UsageIsLawful();
    RankingIsStrictWeak(MemberRank);
    SumOfSorted(Values(m, ks), ByRank(MemberRank), EVERYONE, PointAt(date), USAGE);
    forall r | r in rows ensures KeyOf(plan)(r) in m { MemberKeys(plan, rows, KeyOf(plan)(r)); }
    forall k | k in m
      ensures GroupHolds(rows, KeyOf(plan), OnDate(plan, date), OfRow, EVERYONE, PointAt(date), USAGE, k, m[k])
    {
      MemberPoint(plan, rows, k, date);
    }
    GroupsSumToRows(rows, KeyOf(plan), m, ks, OnDate(plan, date), OfRow, EVERYONE, PointAt(date), USAGE);
    FilterAll(ranking, EVERYONE);
  }

  const EVERYONE: Member -> bool := (m: Member) => true

  /** At every date, the returned series add up to the ungrouped series: every counter and the
      cost, and the largest maximum latency, whatever order the maps were walked in. */
  lemma SeriesConserveUsage(plan: Plan, rows: seq<Row>, ranking: seq<Member>, series: seq<Series>, total: Series,
                            date: string)
    requires Ranking(plan, rows, ranking) && SeriesOf(ranking, series)
    requires PointsOf(TotalPoints(plan, rows), total.points)
    ensures SumBy(series, ShownOn(date), USAGE) == ShownAt(total.points, date)
  {
    SeriesShowRanking(ranking, series, date);
    SumOfVisible(ranking, PointAt(date));
    MembersHoldAllRows(plan, rows, ranking, date);
    TotalPoint(plan, rows, date);
    ListShowsMap(TotalPoints(plan, rows), total.points, date);
  }

  /** No member folded into "other" outranks a kept one. */
  lemma KeptOutrankFolded(plan: Plan, rows: seq<Row>, ranking: seq<Member>, i: nat, j: nat)
    requires Ranking(plan, rows, ranking) && i < TOP_N <= j < |ranking|
    ensures !Outranks(MemberRank(ranking[j]), MemberRank(ranking[i]))
  {
    var m := Members(plan, rows);
    var ks :| Enumerates(m, ks) && ranking == StableSort(Values(m, ks), ByRank(MemberRank));
    RankingIsStrictWeak(MemberRank);
    SortIsOrderedPermutation(Values(m, ks), ByRank(MemberRank));
    assert !ByRank(MemberRank)(ranking[j], ranking[i]);
  }

  // ----- Which dates are shown -----

  ghost predicate HasDate(ps: seq<Point>, date: string) {
    exists p :: p in ps && p.date == date
  }

  lemma PointDates(points: Points, ps: seq<Point>, date: string)
    requires PointsOf(points, ps)
    ensures HasDate(ps, date) <==> date in points
  {
    var dates :| Enumerates(points, dates) && StrictlyIncreasing(dates) && ps == PointList(points, dates);
    if date in points {
      var i :| 0 <= i < |dates| && dates[i] == date;
      assert ps[i] in ps && ps[i].date == date;
    }
    if HasDate(ps, date) {
      var p :| p in ps && p.date == date;
      var i :| 0 <= i < |ps| && ps[i] == p;
      assert dates[i] in dates;
    }
  }

  lemma {:induction false} FoldedDates(members: seq<Member>, date: string)
    ensures date in Folded(members) <==> exists i :: 0 <= i < |members| && date in members[i].points
  {
    if members != [] {
      FoldedDates(members[..|members| - 1], date);
    }
  }

  lemma {:induction false} TotalDates(plan: Plan, rows: seq<Row>, date: string)
    ensures date in TotalPoints(plan, rows) <==> exists r :: r in rows && DateOf(plan)(r) == date
  {
    if rows != [] {
      var init, last := rows[..|rows| - 1], rows[|rows| - 1];
      TotalDates(plan, init, date);
      assert rows == init + [last];
      assert forall r :: r in init ==> r in rows;
      assert last in rows;
    }
  }

  /** The ranking lists exactly the members. */
  lemma RankedMembers(plan: Plan, rows: seq<Row>, ranking: seq<Member>, m: Member)
    requires Ranking(plan, rows, ranking)
    ensures m in ranking <==> HasValue(Members(plan, rows), m)
  {
    var all := Members(plan, rows);
    var ks :| Enumerates(all, ks) && ranking == StableSort(Values(all, ks), ByRank(MemberRank));
    RankingIsStrictWeak(MemberRank);
    SortedValues(all, ks, ByRank(MemberRank), m);
  }

  /** A kept series has a point at exactly the dates of its member's rows. */
  lemma KeptSeriesDates(plan: Plan, rows: seq<Row>, ranking: seq<Member>, series: seq<Series>, i: nat, date: string)
    requires Ranking(plan, rows, ranking) && SeriesOf(ranking, series) && i < KeptCount(|ranking|)
    ensures HasDate(series[i].points, date) <==>
            exists r :: r in rows && KeyOf(plan)(r) == series[i].key && DateOf(plan)(r) == date
  {
    assert ShowsMember(ranking[i], series[i]);
    PointDates(ranking[i].points, series[i].points, date);
    assert ranking[i] in ranking;
    RankedMembers(plan, rows, ranking, ranking[i]);
    var k :| k in Members(plan, rows) && Members(plan, rows)[k] == ranking[i];
    MemberKeys(plan, rows, k);
    MemberDates(plan, rows, k, date);
  }

  ghost predicate ShowsDate(series: seq<Series>, date: string) {
    exists i :: 0 <= i < |series| && HasDate(series[i].points, date)
  }

  /** Some member in this part of the ranking has a point at the date. */
  ghost predicate RankedAt(ranking: seq<Member>, date: string) {
    exists i :: 0 <= i < |ranking| && date in ranking[i].points
  }

  lemma KeptDates(ranking: seq<Member>, series: seq<Series>, date: string)
    requires SeriesOf(ranking, series)
    ensures ShowsDate(series[..KeptCount(|ranking|)], date) <==> RankedAt(ranking[..KeptCount(|ranking|)], date)
  {
    var n := KeptCount(|ranking|);
    forall i | 0 <= i < n ensures HasDate(series[i].points, date) <==> date in ranking[i].points {
      assert ShowsMember(ranking[i], series[i]);
      PointDates(ranking[i].points, series[i].points, date);
    }
    assert forall i :: 0 <= i < n ==> series[..n][i] == series[i] && ranking[..n][i] == ranking[i];
  }

  lemma OtherDates(rest: seq<Member>, other: Series, date: string)
    requires PointsOf(Folded(rest), other.points)
    ensures HasDate(other.points, date) <==> RankedAt(rest, date)
  {
    PointDates(Folded(rest), other.points, date);
    FoldedDates(rest, date);
  }

  lemma ShowsDateSplits(series: seq<Series>, date: string, n: nat)
    requires n <= |series|
    ensures ShowsDate(series, date) <==> ShowsDate(series[..n], date) || ShowsDate(series[n..], date)
  {
    assert forall i :: 0 <= i < n ==> series[..n][i] == series[i];
    assert forall i :: n <= i < |series| ==> series[n..][i - n] == series[i];
  }

  lemma RankedAtSplits(ranking: seq<Member>, date: string, n: nat)
    requires n <= |ranking|
    ensures RankedAt(ranking, date) <==> RankedAt(ranking[..n], date) || RankedAt(ranking[n..], date)
  {
    assert forall i :: 0 <= i < n ==> ranking[..n][i] == ranking[i];
    assert forall i :: n <= i < |ranking| ==> ranking[n..][i - n] == ranking[i];
  }

  lemma SeriesDates(ranking: seq<Member>, series: seq<Series>, date: string)
    requires SeriesOf(ranking, series)
    ensures ShowsDate(series, date) <==> RankedAt(ranking, date)
  {
    var n := KeptCount(|ranking|);
    KeptDates(ranking, series, date);
    ShowsDateSplits(series, date, n);
    RankedAtSplits(ranking, date, n);
    if |ranking| > TOP_N {
      OtherDates(ranking[n..], series[n], date);
      assert series[n..] == [series[n]];
      assert ShowsDate([series[n]], date) <==> HasDate([series[n]][0].points, date);
    }
  }

  lemma RankedDates(plan: Plan, rows: seq<Row>, ranking: seq<Member>, date: string)
    requires Ranking(plan, rows, ranking)
    ensures RankedAt(ranking, date) <==> exists r :: r in rows && DateOf(plan)(r) == date
  {
    if i :| 0 <= i < |ranking| && date in ranking[i].points {
      assert ranking[i] in ranking;
      RankedMembers(plan, rows, ranking, ranking[i]);
      var k :| k in Members(plan, rows) && Members(plan, rows)[k] == ranking[i];
      MemberDates(plan, rows, k, date);
    }
    if r :| r in rows && DateOf(plan)(r) == date {
      var k := KeyOf(plan)(r);
      MemberDates(plan, rows, k, date);
      assert HasValue(Members(plan, rows), Members(plan, rows)[k]);
      RankedMembers(plan, rows, ranking, Members(plan, rows)[k]);
    }
  }

  // ----- The report -----

  datatype GroupBy = NoGroup | ByModel | BySite | BySiteModel | ByApiKey | ByEndpoint | ByErrorType

  /** What rows are grouped by; anything unrecognised groups by model. */
  function SeriesDimension(groupBy: GroupBy, names: map<string, string>): Row -> Ref {
    match groupBy
    case BySite => SiteDimension
    case BySiteModel => SiteModelDimension
    case ByApiKey => (r: Row) => ApiKeyDimension(names, r)
    case ByEndpoint => EndpointDimension
    case ByErrorType => ErrorTypeDimension
    case _ => ModelDimension
  }

  /** Which dimension each grouping reads. */
  lemma GroupingIsRead(names: map<string, string>, r: Row)
    ensures SeriesDimension(ByModel, names)(r) == ModelDimension(r)
    ensures SeriesDimension(BySite, names)(r) == SiteDimension(r)
    ensures SeriesDimension(BySiteModel, names)(r) == SiteModelDimension(r)
  {
  }

  lemma OtherGroupingIsRead(names: map<string, string>, r: Row)
    ensures SeriesDimension(ByApiKey, names)(r) == ApiKeyDimension(names, r)
    ensures SeriesDimension(ByEndpoint, names)(r) == EndpointDimension(r)
    ensures SeriesDimension(ByErrorType, names)(r) == ErrorTypeDimension(r)
  {
  }

  function DatedRow(format: int -> string, date: string): Row -> bool {
    (r: Row) => format(r.bucketStart) == date
  }

  /** The series together show, at every date, everything the rows of that date hold. */
  ghost predicate ShowsAllRows(rows: seq<Row>, format: int -> string, series: seq<Series>) {
    forall date :: SumBy(series, ShownOn(date), USAGE) == Visible(UsageWhere(rows, DatedRow(format, date)))
  }

  /** The series have points at exactly the dates of the rows. */
  ghost predicate ShowsTheirDates(rows: seq<Row>, format: int -> string, series: seq<Series>) {
    forall date :: ShowsDate(series, date) <==> exists r :: r in rows && format(r.bucketStart) == date
  }

  lemma GroupedShowsTheirDates(plan: Plan, rows: seq<Row>, ranking: seq<Member>, series: seq<Series>)
    requires Ranking(plan, rows, ranking) && SeriesOf(ranking, series)
    ensures ShowsTheirDates(rows, plan.format, series)
  {
    forall date ensures ShowsDate(series, date) <==> exists r :: r in rows && plan.format(r.bucketStart) == date {
      SeriesDates(ranking, series, date);
      RankedDates(plan, rows, ranking, date);
      assert forall r :: DateOf(plan)(r) == plan.format(r.bucketStart);
    }
  }

  lemma TotalShowsTheirDates(plan: Plan, rows: seq<Row>, total: Series)
    requires PointsOf(TotalPoints(plan, rows), total.points)
    ensures ShowsTheirDates(rows, plan.format, [total])
  {
    forall date ensures ShowsDate([total], date) <==> exists r :: r in rows && plan.format(r.bucketStart) == date {
      PointDates(TotalPoints(plan, rows), total.points, date);
      TotalDates(plan, rows, date);
      assert [total][0] == total;
      assert forall r :: DateOf(plan)(r) == plan.format(r.bucketStart);
    }
  }

  lemma PlanDates(plan: Plan, rows: seq<Row>, date: string)
    ensures UsageWhere(rows, OnDate(plan, date)) == UsageWhere(rows, DatedRow(plan.format, date))
  {
    forall r | r in rows ensures OnDate(plan, date)(r) == DatedRow(plan.format, date)(r) {
      assert DateOf(plan)(r) == plan.format(r.bucketStart);
    }
    SumWhereCongruent(rows, OnDate(plan, date), DatedRow(plan.format, date), OfRow, USAGE);
  }

  lemma GroupedShowsAllRows(plan: Plan, rows: seq<Row>, ranking: seq<Member>, series: seq<Series>)
    requires Ranking(plan, rows, ranking) && SeriesOf(ranking, series)
    ensures ShowsAllRows(rows, plan.format, series)
  {
    forall date ensures SumBy(series, ShownOn(date), USAGE) == Visible(UsageWhere(rows, DatedRow(plan.format, date))) {
      SeriesShowRanking(ranking, series, date);
      SumOfVisible(ranking, PointAt(date));
      MembersHoldAllRows(plan, rows, ranking, date);
      PlanDates(plan, rows, date);
    }
  }

  lemma TotalShowsAllRows(plan: Plan, rows: seq<Row>, total: Series)
    requires PointsOf(TotalPoints(plan, rows), total.points)
    ensures ShowsAllRows(rows, plan.format, [total])
  {
    forall date ensures SumBy([total], ShownOn(date), USAGE) == Visible(UsageWhere(rows, DatedRow(plan.format, date))) {
      UsageIsLawful();
      SumSnoc([], total, ShownOn(date), USAGE);
      assert [] + [total] == [total];
      Unit(USAGE, ShownOn(date)(total));
      ListShowsMap(TotalPoints(plan, rows), total.points, date);
      TotalPoint(plan, rows, date);
      PlanDates(plan, rows, date);
    }
  }

  /** Without grouping the one total series, otherwise the series of some ranking of the members. */
  ghost predicate SeriesFor(rows: seq<Row>, groupBy: GroupBy, names: map<string, string>, format: int -> string,
                            series: seq<Series>)
  {
    var plan := Plan(SeriesDimension(groupBy, names), format);
    if groupBy == NoGroup then
      exists ps :: PointsOf(TotalPoints(plan, rows), ps) && series == [Series(TOTAL, None, TOTAL_NAME, ps)]
    else
      exists ranking :: Ranking(plan, rows, ranking) && SeriesOf(ranking, series)
  }

  /** For every way of grouping, the report's series are those of its members and conserve usage
      at every date. */
  method ReportSeries(rows: seq<Row>, groupBy: GroupBy, names: map<string, string>, format: int -> string)
    returns (series: seq<Series>)
    ensures SeriesFor(rows, groupBy, names, format, series)
    ensures ShowsAllRows(rows, format, series) && ShowsTheirDates(rows, format, series)
    ensures |series| <= TOP_N + 1
  {
    var plan := Plan(SeriesDimension(groupBy, names), format);
    if groupBy == NoGroup {
      var total := BuildTotalSeries(plan, rows);
      TotalShowsAllRows(plan, rows, total);
      TotalShowsTheirDates(plan, rows, total);
      assert total == Series(TOTAL, None, TOTAL_NAME, total.points);
      return [total];
    }
    series := BuildSeries(plan, rows);
    ghost var ranking :| Ranking(plan, rows, ranking) && SeriesOf(ranking, series);
    GroupedShowsAllRows(plan, rows, ranking, series);
    GroupedShowsTheirDates(plan, rows, ranking, series);
  }

  function ShownTotal(series: seq<Series>): string -> Metrics {
    (date: string) => SumBy(series, ShownOn(date), USAGE)
  }

  function DateBy(format: int -> string): Row -> string {
    (r: Row) => format(r.bucketStart)
  }

  /** Summed over all dates as well, the series are the totals. */
  lemma SeriesAddUpToTotals(rows: seq<Row>, format: int -> string, series: seq<Series>, dates: seq<string>)
    requires ShowsAllRows(rows, format, series) && Distinct(dates)
    requires forall r :: r in rows ==> format(r.bucketStart) in dates
    ensures SumBy(dates, ShownTotal(series), USAGE) == Visible(SumBy(rows, OfRow, USAGE))
  {
    var groups := GroupSum(rows, DateBy(format), ALL, OfRow, USAGE);
    forall i | 0 <= i < |dates| ensures ShownTotal(series)(dates[i]) == VisibleOf(groups)(dates[i]) {
      SumWhereCongruent(rows, DatedRow(format, dates[i]), KeyIs(DateBy(format), dates[i], ALL), OfRow, USAGE);
    }
    SumOfMapped(dates, dates, ShownTotal(series), VisibleOf(groups), USAGE);
    SumOfVisible(dates, groups);
    UsageIsLawful();
    GroupsAddUp(rows, DateBy(format), dates, ALL, OfRow, USAGE);
    FilterAll(rows, KeyIn(DateBy(format), dates, ALL));
  }

  // ----- Kept members, in numbers -----

  lemma RankedUnderKey(plan: Plan, rows: seq<Row>, ranking: seq<Member>, i: nat)
    requires Ranking(plan, rows, ranking) && i < |ranking|
    ensures var k := ranking[i].ref.key; k in Members(plan, rows) && Members(plan, rows)[k] == ranking[i]
  {
    assert ranking[i] in ranking;
    RankedMembers(plan, rows, ranking, ranking[i]);
    var k :| k in Members(plan, rows) && Members(plan, rows)[k] == ranking[i];
    MemberKeys(plan, rows, k);
  }

  /** What the rows of a ranked member hold. */
  function RowsOf(plan: Plan, rows: seq<Row>, m: Member): Metrics {
    UsageWhere(rows, KeyIs(KeyOf(plan), m.ref.key, ALL))
  }

  /** Each of the nine kept members has cost at least as much as each folded one, on equal cost
      made at least as many requests, and on equal requests has no later name. */
  lemma KeptOutspendFolded(plan: Plan, rows: seq<Row>, ranking: seq<Member>, i: nat, j: nat)
    requires Ranking(plan, rows, ranking) && i < 9 <= j < |ranking|
    ensures var k, f := RowsOf(plan, rows, ranking[i]), RowsOf(plan, rows, ranking[j]);
            || k.cost > f.cost
            || (k.cost == f.cost && k.requests > f.requests)
            || (k.cost == f.cost && k.requests == f.requests && !Less(ranking[j].ref.name, ranking[i].ref.name))
  {
    KeptOutrankFolded(plan, rows, ranking, i, j);
    NotOutranked(MemberRank(ranking[i]), MemberRank(ranking[j]));
    RankedUnderKey(plan, rows, ranking, i);
    RankedUnderKey(plan, rows, ranking, j);
    MemberSpend(plan, rows, ranking[i].ref.key);
    MemberSpend(plan, rows, ranking[j].ref.key);
  }

  /** Up to nine members all have their series; of more, nine and the rest under "other". */
  lemma SeriesAreCounted(ranking: seq<Member>, series: seq<Series>)
    requires SeriesOf(ranking, series)
    ensures |series| == if |ranking| <= 9 then |ranking| else 10
    ensures |ranking| > 9 ==> series[9].key == "other" && series[9].id == None && series[9].name == "其他"
  {
  }

  /** A point shows the accumulator of its date, field by field. */
  lemma PointIsItsMetrics(points: Points, ps: seq<Point>, p: Point)
    requires PointsOf(points, ps) && p in ps
    ensures p.date in points
    ensures var m := points[p.date];
            && p.requests == m.requests && p.successes == m.successes && p.failures == m.failures
            && p.promptTokens == m.promptTokens && p.completionTokens == m.completionTokens
            && p.cachedTokens == m.cachedTokens && p.totalTokens == m.totalTokens && p.cost == m.cost
            && p.maxLatency == m.latencyMax
            && p.averageLatency == if m.latencyCount == 0 then 0.0 else m.latencyTotal as real / m.latencyCount as real
  {
    var dates :| Enumerates(points, dates) && StrictlyIncreasing(dates) && ps == PointList(points, dates);
    var i :| 0 <= i < |ps| && ps[i] == p;
    assert dates[i] in dates;
  }
}
